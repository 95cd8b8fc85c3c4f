/**
 * `makeEnv` (index.js:346-446): flattening a package object and the config table
 * into the flat string-to-string environment of a lifecycle script.
 *
 * Package data is a heap of objects addressed by ids; a field holds either a
 * scalar (already rendered by `String(v)`) or a reference to an object, whose
 * fields are listed in the order `for…in` visits them. An id outside the heap
 * reads as an empty object; heaps built from JavaScript values have none.
 */
module PackageEnv {
  import opened Wrappers
  import opened Text
  import opened EnvKeys
  import opened JsonString

  type NodeId = nat

  datatype Value = Scalar(text: string) | Obj(id: NodeId)

  datatype Field = Field(key: string, value: Value)

  type Heap = map<NodeId, seq<Field>>

  type Env = map<string, string>

  /** One assignment `env[key] = value` performed by the flattening. */
  datatype Write = Write(key: string, value: string)

  const PackagePrefix := "npm_package_"
  const ConfigPrefix := "npm_config_"
  const PackageConfigPrefix := "npm_package_config_"

  function NodeAt(h: Heap, id: NodeId): seq<Field> {
    if id in h then h[id] else []
  }

  /** The value `o[key]` of an object, `undefined` when it has no such field. */
  function Get(fields: seq<Field>, key: string): Value
    decreases |fields|
  {
    if fields == [] then Scalar("undefined")
    else if fields[0].key == key then fields[0].value
    else Get(fields[1..], key)
  }

  // ---------------------------------------------------------------- values

  /**
   * The stored form of a rendered value (index.js:392-395, 421-423): a value
   * containing a newline is replaced by its JSON string literal.
   */
  function SingleLine(v: string): (r: string)
    ensures '\n' !in r
    ensures '\n' !in v ==> r == v
    ensures '\n' in v ==> Unquote(r) == Some(v)
  {
    if '\n' in v then QuoteRoundTrip(v); Quote(v) else v
  }

  // -------------------------------------------------- JSON serialisability

  /** Every chain of references starting at `id` ends within `depth` objects. */
  predicate AcyclicWithin(h: Heap, id: NodeId, depth: nat)
    decreases depth
  {
    depth > 0 &&
    forall j :: 0 <= j < |NodeAt(h, id)| && NodeAt(h, id)[j].value.Obj? ==>
      AcyclicWithin(h, NodeAt(h, id)[j].value.id, depth - 1)
  }

  /**
   * `JSON.stringify(o)` succeeds: no reference chain from `o` is longer than the
   * heap, which in a finite heap means that no cycle is reachable from it.
   */
  predicate Serialisable(h: Heap, id: NodeId) {
    AcyclicWithin(h, id, |h| + 1)
  }

  lemma {:induction false} AcyclicWithinMonotone(h: Heap, id: NodeId, d: nat, e: nat)
    requires AcyclicWithin(h, id, d) && d <= e
    ensures AcyclicWithin(h, id, e)
    decreases d
  {
    var fs := NodeAt(h, id);
    forall j | 0 <= j < |fs| && fs[j].value.Obj?
      ensures AcyclicWithin(h, fs[j].value.id, e - 1)
    {
      AcyclicWithinMonotone(h, fs[j].value.id, d - 1, e - 1);
    }
  }

  /** Everything an object that serialises refers to serialises as well. */
  lemma SerialisableChildren(h: Heap, id: NodeId, j: nat)
    requires Serialisable(h, id)
    requires j < |NodeAt(h, id)| && NodeAt(h, id)[j].value.Obj?
    ensures Serialisable(h, NodeAt(h, id)[j].value.id)
  {
    AcyclicWithinMonotone(h, NodeAt(h, id)[j].value.id, |h|, |h| + 1);
  }

  /** An object that refers to itself does not serialise. */
  lemma {:induction false} SelfReferenceNotSerialisable(h: Heap, id: NodeId, j: nat, d: nat)
    requires j < |NodeAt(h, id)| && NodeAt(h, id)[j].value == Obj(id)
    ensures !AcyclicWithin(h, id, d)
    decreases d
  {
    if d > 0 {
      SelfReferenceNotSerialisable(h, id, j, d - 1);
    }
  }

  /** An object outside the heap reads as `{}`, which serialises. */
  lemma NotSerialisableIsInHeap(h: Heap, id: NodeId)
    requires !Serialisable(h, id)
    ensures id in h
  {
  }

  // ------------------------------------------------------------ flattening

  /** Fields whose name starts with `_`, and `readme`, are never exported (index.js:370-374). */
  predicate Skipped(key: string) {
    (|key| > 0 && key[0] == '_') || key == "readme"
  }

  /**
   * The object built for a value that does not serialise (index.js:383-389):
   * `{ name: d.name, version: d.version, path: d.path }`.
   */
  function StandIn(h: Heap, id: NodeId): (r: seq<Field>)
    ensures |r| == 3 && r[0].key == "name" && r[1].key == "version" && r[2].key == "path"
  {
    var fs := NodeAt(h, id);
    [Field("name", Get(fs, "name")), Field("version", Get(fs, "version")), Field("path", Get(fs, "path"))]
  }

  /**
   * The writes for the fields of an object that serialises; `depth` bounds its
   * reference chains, so every nested object serialises too.
   */
  function TreeWrites(h: Heap, fields: seq<Field>, prefix: string, depth: nat): seq<Write>
    requires forall j :: 0 <= j < |fields| && fields[j].value.Obj? ==> AcyclicWithin(h, fields[j].value.id, depth)
    decreases depth, |fields|
  {
    if fields == [] then []
    else TreeField(h, fields[0], prefix, depth) + TreeWrites(h, fields[1..], prefix, depth)
  }

  function TreeField(h: Heap, f: Field, prefix: string, depth: nat): seq<Write>
    requires f.value.Obj? ==> AcyclicWithin(h, f.value.id, depth)
    decreases depth, 0
  {
    if Skipped(f.key) then []
    else
      var key := Sanitize(prefix + f.key);
      match f.value
      case Scalar(t) => [Write(key, SingleLine(t))]
      case Obj(c) => TreeWrites(h, NodeAt(h, c), key + "_", depth - 1)
  }

  /**
   * The writes for the fields of an object at a level where objects that do not
   * serialise are reduced to their stand-in. `reducing` holds the objects whose
   * stand-ins are being flattened on the way here: reaching one of them again
   * writes nothing (index.js reduces it again and never stops; see
   * `LevelWritesAsWritten`).
   */
  function LevelWrites(h: Heap, fields: seq<Field>, prefix: string, reducing: set<NodeId>): seq<Write>
    requires reducing <= h.Keys
    decreases |h.Keys - reducing|, |fields|
  {
    if fields == [] then []
    else LevelField(h, fields[0], prefix, reducing) + LevelWrites(h, fields[1..], prefix, reducing)
  }

  function LevelField(h: Heap, f: Field, prefix: string, reducing: set<NodeId>): seq<Write>
    requires reducing <= h.Keys
    decreases |h.Keys - reducing|, 0
  {
    if Skipped(f.key) then []
    else
      var key := Sanitize(prefix + f.key);
      match f.value
      case Scalar(t) => [Write(key, SingleLine(t))]
      case Obj(c) =>
        if Serialisable(h, c) then TreeWrites(h, NodeAt(h, c), key + "_", |h|)
        else if c in reducing then []
        else
          NotSerialisableIsInHeap(h, c);
          assert h.Keys - (reducing + {c}) < h.Keys - reducing;
          LevelWrites(h, StandIn(h, c), key + "_", reducing + {c})
  }

  /** Performs the writes in order; a later write to the same key wins. */
  function Apply(env: Env, ws: seq<Write>): Env
    decreases |ws|
  {
    if ws == [] then env else Apply(env[ws[0].key := ws[0].value], ws[1..])
  }

  // ------------------------------------------- properties of the writes

  /** Every write goes to a valid name starting with `prefix` and stores a value without a newline. */
  predicate WritesUnder(ws: seq<Write>, prefix: string) {
    forall i :: 0 <= i < |ws| ==> IsEnvName(ws[i].key) && StartsWith(ws[i].key, prefix) && '\n' !in ws[i].value
  }

  lemma WritesUnderAppend(a: seq<Write>, b: seq<Write>, prefix: string)
    requires WritesUnder(a, prefix) && WritesUnder(b, prefix)
    ensures WritesUnder(a + b, prefix)
  {
    forall i | 0 <= i < |a + b| ensures IsEnvName((a + b)[i].key) && StartsWith((a + b)[i].key, prefix) && '\n' !in (a + b)[i].value {
      if i < |a| { assert (a + b)[i] == a[i]; } else { assert (a + b)[i] == b[i - |a|]; }
    }
  }

  lemma WritesUnderWeaken(ws: seq<Write>, longer: string, prefix: string)
    requires WritesUnder(ws, longer) && StartsWith(longer, prefix)
    ensures WritesUnder(ws, prefix)
  {
    forall i | 0 <= i < |ws| ensures StartsWith(ws[i].key, prefix) {
      assert ws[i].key[..|prefix|] == longer[..|prefix|];
    }
  }

  /** The key of a field, and the prefix of everything nested below it, extend the level's prefix. */
  lemma FieldKeyExtends(prefix: string, key: string)
    requires IsEnvName(prefix)
    ensures IsEnvName(Sanitize(prefix + key) + "_")
    ensures StartsWith(Sanitize(prefix + key), prefix)
    ensures StartsWith(Sanitize(prefix + key) + "_", Sanitize(prefix + key))
  {
    SanitizeUnderPrefix(prefix, key);
    var k := Sanitize(prefix + key);
    assert k[..|prefix|] == prefix;
    assert (k + "_")[..|k|] == k;
  }

  lemma {:induction false} TreeWritesShape(h: Heap, fields: seq<Field>, prefix: string, depth: nat)
    requires forall j :: 0 <= j < |fields| && fields[j].value.Obj? ==> AcyclicWithin(h, fields[j].value.id, depth)
    requires IsEnvName(prefix)
    ensures WritesUnder(TreeWrites(h, fields, prefix, depth), prefix)
    decreases depth, |fields|
  {
    if fields != [] {
      TreeFieldShape(h, fields[0], prefix, depth);
      FieldKeyExtends(prefix, fields[0].key);
      WritesUnderWeaken(TreeField(h, fields[0], prefix, depth), Sanitize(prefix + fields[0].key), prefix);
      TreeWritesShape(h, fields[1..], prefix, depth);
      WritesUnderAppend(TreeField(h, fields[0], prefix, depth), TreeWrites(h, fields[1..], prefix, depth), prefix);
    }
  }

  lemma {:induction false} TreeFieldShape(h: Heap, f: Field, prefix: string, depth: nat)
    requires f.value.Obj? ==> AcyclicWithin(h, f.value.id, depth)
    requires IsEnvName(prefix)
    ensures WritesUnder(TreeField(h, f, prefix, depth), Sanitize(prefix + f.key))
    decreases depth, 0
  {
    var key := Sanitize(prefix + f.key);
    if !Skipped(f.key) && f.value.Obj? {
      FieldKeyExtends(prefix, f.key);
      TreeWritesShape(h, NodeAt(h, f.value.id), key + "_", depth - 1);
      WritesUnderWeaken(TreeField(h, f, prefix, depth), key + "_", key);
    }
  }

  /**
   * Every key the flattening writes is a valid environment name that starts with
   * the prefix (npm_package_ at the top), and no stored value holds a raw newline.
   */
  lemma {:induction false} LevelWritesShape(h: Heap, fields: seq<Field>, prefix: string, reducing: set<NodeId>)
    requires reducing <= h.Keys && IsEnvName(prefix)
    ensures WritesUnder(LevelWrites(h, fields, prefix, reducing), prefix)
    decreases |h.Keys - reducing|, |fields|
  {
    if fields != [] {
      LevelFieldShape(h, fields[0], prefix, reducing);
      FieldKeyExtends(prefix, fields[0].key);
      WritesUnderWeaken(LevelField(h, fields[0], prefix, reducing), Sanitize(prefix + fields[0].key), prefix);
      LevelWritesShape(h, fields[1..], prefix, reducing);
      WritesUnderAppend(LevelField(h, fields[0], prefix, reducing), LevelWrites(h, fields[1..], prefix, reducing), prefix);
    }
  }

  /** Everything a field writes lies under its own sanitised key. */
  lemma {:induction false} LevelFieldShape(h: Heap, f: Field, prefix: string, reducing: set<NodeId>)
    requires reducing <= h.Keys && IsEnvName(prefix)
    ensures WritesUnder(LevelField(h, f, prefix, reducing), Sanitize(prefix + f.key))
    decreases |h.Keys - reducing|, 0
  {
    var key := Sanitize(prefix + f.key);
    if !Skipped(f.key) && f.value.Obj? {
      var c := f.value.id;
      FieldKeyExtends(prefix, f.key);
      if Serialisable(h, c) {
        TreeWritesShape(h, NodeAt(h, c), key + "_", |h|);
        WritesUnderWeaken(TreeWrites(h, NodeAt(h, c), key + "_", |h|), key + "_", key);
      } else if c !in reducing {
        assert h.Keys - (reducing + {c}) < h.Keys - reducing;
        LevelWritesShape(h, StandIn(h, c), key + "_", reducing + {c});
        WritesUnderWeaken(LevelWrites(h, StandIn(h, c), key + "_", reducing + {c}), key + "_", key);
      }
    }
  }

  /** The fields of an object with the skipped ones (`_...`, `readme`) taken out. */
  function Exported(fields: seq<Field>): (r: seq<Field>)
    ensures forall j :: 0 <= j < |r| ==> !Skipped(r[j].key)
    decreases |fields|
  {
    if fields == [] then []
    else if Skipped(fields[0].key) then Exported(fields[1..])
    else [fields[0]] + Exported(fields[1..])
  }

  /** Skipped fields contribute nothing: flattening an object equals flattening its exported fields. */
  lemma {:induction false} SkippedFieldsWriteNothing(h: Heap, fields: seq<Field>, prefix: string, reducing: set<NodeId>)
    requires reducing <= h.Keys
    ensures LevelWrites(h, fields, prefix, reducing) == LevelWrites(h, Exported(fields), prefix, reducing)
    decreases |fields|
  {
    if fields != [] {
      SkippedFieldsWriteNothing(h, fields[1..], prefix, reducing);
      if !Skipped(fields[0].key) {
        assert ([fields[0]] + Exported(fields[1..]))[1..] == Exported(fields[1..]);
      }
    }
  }

  /** True when `key` lies under `base + "name"`, `base + "version"` or `base + "path"`. */
  predicate UnderStandIn(key: string, base: string) {
    StartsWith(key, base + "name") || StartsWith(key, base + "version") || StartsWith(key, base + "path")
  }

  /**
   * A field holding an object that does not serialise exports only the object's
   * name, version and path, under the field's key followed by `_`.
   */
  lemma NotSerialisableExportsNameVersionPath(h: Heap, key: string, c: NodeId, prefix: string, reducing: set<NodeId>)
    requires reducing <= h.Keys && IsEnvName(prefix) && !Skipped(key)
    requires !Serialisable(h, c) && c !in reducing
    ensures forall w :: w in LevelField(h, Field(key, Obj(c)), prefix, reducing) ==>
              UnderStandIn(w.key, Sanitize(prefix + key) + "_")
  {
    var base := Sanitize(prefix + key) + "_";
    FieldKeyExtends(prefix, key);
    var fs := StandIn(h, c);
    var r := reducing + {c};
    assert h.Keys - r < h.Keys - reducing;
    LevelWritesOfThree(h, fs[0], fs[1], fs[2], base, r);
    assert fs == [fs[0], fs[1], fs[2]];
    StandInFieldsUnder(h, fs, base, r);
  }

  lemma StandInFieldsUnder(h: Heap, fs: seq<Field>, base: string, r: set<NodeId>)
    requires r <= h.Keys && IsEnvName(base)
    requires |fs| == 3 && fs[0].key == "name" && fs[1].key == "version" && fs[2].key == "path"
    ensures forall w :: w in LevelField(h, fs[0], base, r) ==> StartsWith(w.key, base + "name")
    ensures forall w :: w in LevelField(h, fs[1], base, r) ==> StartsWith(w.key, base + "version")
    ensures forall w :: w in LevelField(h, fs[2], base, r) ==> StartsWith(w.key, base + "path")
  {
    StandInFieldUnder(h, fs[0], base, r);
    StandInFieldUnder(h, fs[1], base, r);
    StandInFieldUnder(h, fs[2], base, r);
  }

  lemma StandInFieldUnder(h: Heap, f: Field, base: string, r: set<NodeId>)
    requires r <= h.Keys && IsEnvName(base) && IsEnvName(base + f.key)
    ensures forall w :: w in LevelField(h, f, base, r) ==> StartsWith(w.key, base + f.key)
  {
    LevelFieldShape(h, f, base, r);
    SanitizeFixesNames(base + f.key);
    WritesUnderMembers(LevelField(h, f, base, r), base + f.key);
  }

  lemma WritesUnderMembers(ws: seq<Write>, prefix: string)
    requires WritesUnder(ws, prefix)
    ensures forall w :: w in ws ==> StartsWith(w.key, prefix)
  {
    forall w | w in ws ensures StartsWith(w.key, prefix) {
      var i :| 0 <= i < |ws| && ws[i] == w;
    }
  }

  /** The names written by a sequence of writes. */
  function KeysOf(ws: seq<Write>): set<string> {
    set i | 0 <= i < |ws| :: ws[i].key
  }

  lemma {:induction false} ApplyConcat(env: Env, a: seq<Write>, b: seq<Write>)
    ensures Apply(env, a + b) == Apply(Apply(env, a), b)
    decreases |a|
  {
    if a != [] {
      var e := env[a[0].key := a[0].value];
      assert (a + b)[0] == a[0];
      assert (a + b)[1..] == a[1..] + b;
      calc {
        Apply(env, a + b);
        Apply(e, a[1..] + b);
        { ApplyConcat(e, a[1..], b); }
        Apply(Apply(e, a[1..]), b);
        Apply(Apply(env, a), b);
      }
    } else {
      assert a + b == b;
    }
  }

  /** Applying writes adds exactly their keys and leaves every other entry alone. */
  lemma {:induction false} ApplyFrame(env: Env, ws: seq<Write>)
    ensures Apply(env, ws).Keys == env.Keys + KeysOf(ws)
    ensures forall k :: k in env && k !in KeysOf(ws) ==> Apply(env, ws)[k] == env[k]
    decreases |ws|
  {
    if ws != [] {
      ApplyFrame(env[ws[0].key := ws[0].value], ws[1..]);
      assert KeysOf(ws) == {ws[0].key} + KeysOf(ws[1..]) by {
        forall k | k in KeysOf(ws) ensures k in {ws[0].key} + KeysOf(ws[1..]) {
          var i :| 0 <= i < |ws| && ws[i].key == k;
          if i > 0 { assert ws[1..][i - 1].key == k; }
        }
        forall k | k in KeysOf(ws[1..]) ensures k in KeysOf(ws) {
          var i :| 0 <= i < |ws[1..]| && ws[1..][i].key == k;
          assert ws[i + 1].key == k;
        }
      }
    }
  }

  lemma {:induction false} TreeWritesSnoc(h: Heap, fs: seq<Field>, f: Field, prefix: string, depth: nat)
    requires forall j :: 0 <= j < |fs| && fs[j].value.Obj? ==> AcyclicWithin(h, fs[j].value.id, depth)
    requires f.value.Obj? ==> AcyclicWithin(h, f.value.id, depth)
    ensures TreeWrites(h, fs + [f], prefix, depth) == TreeWrites(h, fs, prefix, depth) + TreeField(h, f, prefix, depth)
    decreases |fs|
  {
    if fs == [] {
      assert [] + [f] == [f];
      assert TreeWrites(h, [f], prefix, depth) == TreeField(h, f, prefix, depth) + [];
    } else {
      assert (fs + [f])[1..] == fs[1..] + [f];
      TreeWritesSnoc(h, fs[1..], f, prefix, depth);
    }
  }

  lemma {:induction false} LevelWritesSnoc(h: Heap, fs: seq<Field>, f: Field, prefix: string, reducing: set<NodeId>)
    requires reducing <= h.Keys
    ensures LevelWrites(h, fs + [f], prefix, reducing) == LevelWrites(h, fs, prefix, reducing) + LevelField(h, f, prefix, reducing)
    decreases |fs|
  {
    if fs == [] {
      assert [] + [f] == [f];
      assert LevelWrites(h, [f], prefix, reducing) == LevelField(h, f, prefix, reducing) + [];
    } else {
      assert (fs + [f])[1..] == fs[1..] + [f];
      LevelWritesSnoc(h, fs[1..], f, prefix, reducing);
    }
  }

  // --------------------------------------------------------------- methods

  /** A case variant of `PATH` (`/^PATH$/i`; only ASCII letters fold). */
  predicate IsPathSpelling(k: string) {
    |k| == 4 && UpperAscii(k[0]) == 'P' && UpperAscii(k[1]) == 'A' && UpperAscii(k[2]) == 'T' && UpperAscii(k[3]) == 'H'
  }

  function UpperAscii(c: char): char {
    if 'a' <= c <= 'z' then (c as int - 32) as char else c
  }

  /**
   * Which inherited variables a top-level call keeps: those the test of
   * index.js:351 lets through, except `__proto__`, which `env[i] = ...` on
   * the fresh object does not store.
   */
  predicate Inherited(k: string, pathName: string) {
    !StartsWith(k, "npm_") && (!IsPathSpelling(k) || k == pathName) && k != ProtoKey
  }

  /** The copy of `process.env` a top-level call starts from (index.js:349-354). */
  method InheritEnv(processEnv: Env, pathName: string) returns (env: Env)
    ensures forall k :: k in env <==> k in processEnv && Inherited(k, pathName)
    ensures forall k :: k in env ==> env[k] == processEnv[k]
  {
    env := map[];
    var todo := processEnv.Keys;
    while todo != {}
      invariant todo <= processEnv.Keys
      invariant forall k :: k in env <==> k in processEnv && k !in todo && Inherited(k, pathName)
      invariant forall k :: k in env ==> env[k] == processEnv[k]
      decreases |todo|
    {
      var k :| k in todo;
      if Inherited(k, pathName) {
        env := env[k := processEnv[k]];
      }
      todo := todo - {k};
    }
  }

  /**
   * The recursive call of index.js:379 for an object that serialises: the
   * for-in loop over its fields. Every nested object serialises as well
   * (`SerialisableChildren`), so the serialisation test of index.js:378
   * succeeds at every level below and is not repeated here.
   */
  method TreeInto(h: Heap, fields: seq<Field>, prefix: string, depth: nat, env0: Env) returns (env: Env)
    requires forall j :: 0 <= j < |fields| && fields[j].value.Obj? ==> AcyclicWithin(h, fields[j].value.id, depth)
    ensures env == Apply(env0, TreeWrites(h, fields, prefix, depth))
    decreases depth, 1
  {
    env := env0;
    var j := 0;
    while j < |fields|
      invariant 0 <= j <= |fields|
      invariant env == Apply(env0, TreeWrites(h, fields[..j], prefix, depth))
    {
      var f := fields[j];
      env := TreeFieldInto(h, f, prefix, depth, env);
      assert fields[..j + 1] == fields[..j] + [f];
      TreeWritesSnoc(h, fields[..j], f, prefix, depth);
      ApplyConcat(env0, TreeWrites(h, fields[..j], prefix, depth), TreeField(h, f, prefix, depth));
      j := j + 1;
    }
    assert fields[..|fields|] == fields;
  }

  /** One field of an object that serialises (index.js:370-396). */
  method TreeFieldInto(h: Heap, f: Field, prefix: string, depth: nat, env0: Env) returns (env: Env)
    requires f.value.Obj? ==> AcyclicWithin(h, f.value.id, depth)
    ensures env == Apply(env0, TreeField(h, f, prefix, depth))
    decreases depth, 0
  {
    env := env0;
    if !Skipped(f.key) {
      var key := Sanitize(prefix + f.key);
      match f.value
      case Scalar(t) =>
        env := env[key := SingleLine(t)];
      case Obj(c) =>
        env := TreeInto(h, NodeAt(h, c), key + "_", depth - 1, env);
    }
  }

  /**
   * The for-in loop of index.js:369-398 at a level where objects that do not
   * serialise are reduced to their stand-in (index.js:375-390).
   */
  method LevelInto(h: Heap, fields: seq<Field>, prefix: string, reducing: set<NodeId>, env0: Env) returns (env: Env)
    requires reducing <= h.Keys
    ensures env == Apply(env0, LevelWrites(h, fields, prefix, reducing))
    decreases |h.Keys - reducing|, 1
  {
    env := env0;
    var j := 0;
    while j < |fields|
      invariant 0 <= j <= |fields|
      invariant env == Apply(env0, LevelWrites(h, fields[..j], prefix, reducing))
    {
      var f := fields[j];
      ghost var before := env;
      env := LevelFieldInto(h, f, prefix, reducing, env);
      assert fields[..j + 1] == fields[..j] + [f];
      LevelWritesSnoc(h, fields[..j], f, prefix, reducing);
      ApplyConcat(env0, LevelWrites(h, fields[..j], prefix, reducing), LevelField(h, f, prefix, reducing));
      j := j + 1;
    }
    assert fields[..|fields|] == fields;
  }

  /** One iteration of that loop: one field of the object (index.js:370-396). */
  method LevelFieldInto(h: Heap, f: Field, prefix: string, reducing: set<NodeId>, env0: Env) returns (env: Env)
    requires reducing <= h.Keys
    ensures env == Apply(env0, LevelField(h, f, prefix, reducing))
    decreases |h.Keys - reducing|, 0
  {
    env := env0;
    if !Skipped(f.key) {
      var key := Sanitize(prefix + f.key);
      match f.value
      case Scalar(t) =>
        env := env[key := SingleLine(t)];
      case Obj(c) =>
        if Serialisable(h, c) {
          env := TreeInto(h, NodeAt(h, c), key + "_", |h|, env);
        } else if c !in reducing {
          NotSerialisableIsInHeap(h, c);
          assert h.Keys - (reducing + {c}) < h.Keys - reducing;
          env := LevelInto(h, StandIn(h, c), key + "_", reducing + {c}, env);
        }
    }
  }

  // -------------------------------------------- as written: no termination

  /**
   * index.js:375-390 as written, with a fuel bound standing for the call stack:
   * a stand-in whose own field does not serialise is reduced again, without
   * end. `None` means the fuel ran out.
   */
  function LevelWritesAsWritten(h: Heap, fields: seq<Field>, prefix: string, fuel: nat): Option<seq<Write>>
    decreases fuel, |fields|
  {
    if fields == [] then Some([])
    else
      match LevelFieldAsWritten(h, fields[0], prefix, fuel)
      case None => None
      case Some(a) =>
        match LevelWritesAsWritten(h, fields[1..], prefix, fuel)
        case None => None
        case Some(b) => Some(a + b)
  }

  function LevelFieldAsWritten(h: Heap, f: Field, prefix: string, fuel: nat): Option<seq<Write>>
    decreases fuel, 0
  {
    if Skipped(f.key) then Some([])
    else
      var key := Sanitize(prefix + f.key);
      match f.value
      case Scalar(t) => Some([Write(key, SingleLine(t))])
      case Obj(c) =>
        if Serialisable(h, c) then Some(TreeWrites(h, NodeAt(h, c), key + "_", |h|))
        else if fuel == 0 then None
        else LevelWritesAsWritten(h, StandIn(h, c), key + "_", fuel - 1)
  }

  /** `a = {}; a.name = a; pkg = { dep: a }` */
  const LoopHeap: Heap := map[0 := [Field("name", Obj(0))], 1 := [Field("dep", Obj(0))]]

  /** On `LoopHeap` the stand-in of `a` is reduced again in every round: no fuel suffices. */
  lemma {:induction false} StandInLoopsForever(prefix: string, fuel: nat)
    ensures LevelWritesAsWritten(LoopHeap, StandIn(LoopHeap, 0), prefix, fuel) == None
    decreases fuel
  {
    forall d: nat ensures !AcyclicWithin(LoopHeap, 0, d) {
      SelfReferenceNotSerialisable(LoopHeap, 0, 0, d);
    }
    var fs := StandIn(LoopHeap, 0);
    assert fs[0] == Field("name", Obj(0));
    var key := Sanitize(prefix + "name");
    if fuel > 0 {
      StandInLoopsForever(key + "_", fuel - 1);
    }
  }

  /** makeEnv as written never finishes on `LoopHeap`, whatever the stack depth. */
  lemma MakeEnvAsWrittenDiverges(fuel: nat)
    ensures LevelWritesAsWritten(LoopHeap, NodeAt(LoopHeap, 1), PackagePrefix, fuel) == None
  {
    forall d: nat ensures !AcyclicWithin(LoopHeap, 0, d) {
      SelfReferenceNotSerialisable(LoopHeap, 0, 0, d);
    }
    var f := Field("dep", Obj(0));
    assert NodeAt(LoopHeap, 1) == [f];
    var key := Sanitize(PackagePrefix + "dep");
    if fuel > 0 {
      StandInLoopsForever(key + "_", fuel - 1);
    }
    assert LevelFieldAsWritten(LoopHeap, f, PackagePrefix, fuel) == None;
  }

  lemma LoopNotSerialisable()
    ensures !Serialisable(LoopHeap, 0)
  {
    assert NodeAt(LoopHeap, 0) == [Field("name", Obj(0))];
    SelfReferenceNotSerialisable(LoopHeap, 0, 0, |LoopHeap| + 1);
  }

  lemma LevelWritesOfThree(h: Heap, a: Field, b: Field, c: Field, prefix: string, reducing: set<NodeId>)
    requires reducing <= h.Keys
    ensures LevelWrites(h, [a, b, c], prefix, reducing) ==
            LevelField(h, a, prefix, reducing) + LevelField(h, b, prefix, reducing) + LevelField(h, c, prefix, reducing)
  {
    var wa, wb, wc := LevelField(h, a, prefix, reducing), LevelField(h, b, prefix, reducing), LevelField(h, c, prefix, reducing);
    LevelWritesSingle(h, c, prefix, reducing);
    assert [b, c][1..] == [c];
    assert LevelWrites(h, [b, c], prefix, reducing) == wb + wc;
    assert [a, b, c][1..] == [b, c];
    assert LevelWrites(h, [a, b, c], prefix, reducing) == wa + (wb + wc);
    assert wa + (wb + wc) == wa + wb + wc;
  }

  lemma ScalarField(h: Heap, key: string, t: string, prefix: string, reducing: set<NodeId>)
    requires reducing <= h.Keys && !Skipped(key) && IsEnvName(prefix + key) && '\n' !in t
    ensures LevelField(h, Field(key, Scalar(t)), prefix, reducing) == [Write(prefix + key, t)]
  {
    SanitizeFixesNames(prefix + key);
  }

  const LoopStandInWrites := [Write("npm_package_dep_version", "undefined"), Write("npm_package_dep_path", "undefined")]

  lemma SelfNamedStandInFields(h: Heap, c: NodeId)
    requires c in h && h[c] == [Field("name", Obj(c))]
    ensures StandIn(h, c) == [Field("name", Obj(c)), Field("version", Scalar("undefined")), Field("path", Scalar("undefined"))]
  {
    assert "name" != "path" by { assert "name"[0] != "path"[0]; }
    assert Get(h[c], "version") == Scalar("undefined");
    assert Get(h[c], "path") == Scalar("undefined");
  }

  lemma SelfNamedStandInWrites(h: Heap, c: NodeId, base: string)
    requires c in h && !Serialisable(h, c)
    requires IsEnvName(base + "version") && IsEnvName(base + "path")
    ensures LevelWrites(h, [Field("name", Obj(c)), Field("version", Scalar("undefined")), Field("path", Scalar("undefined"))], base, {c}) ==
            [Write(base + "version", "undefined"), Write(base + "path", "undefined")]
  {
    var n, v, p := Field("name", Obj(c)), Field("version", Scalar("undefined")), Field("path", Scalar("undefined"));
    LevelWritesOfThree(h, n, v, p, base, {c});
    UndefinedField(h, "version", base, {c});
    UndefinedField(h, "path", base, {c});
    ReducedFieldWritesNothing(h, "name", c, base, {c});
  }

  lemma UndefinedField(h: Heap, key: string, prefix: string, reducing: set<NodeId>)
    requires reducing <= h.Keys && (key == "version" || key == "path") && IsEnvName(prefix + key)
    ensures LevelField(h, Field(key, Scalar("undefined")), prefix, reducing) == [Write(prefix + key, "undefined")]
  {
    assert "undefined"[0] != '\n';
    ScalarField(h, key, "undefined", prefix, reducing);
  }

  lemma ReducedFieldWritesNothing(h: Heap, key: string, c: NodeId, prefix: string, reducing: set<NodeId>)
    requires reducing <= h.Keys && !Skipped(key) && !Serialisable(h, c) && c in reducing
    ensures LevelField(h, Field(key, Obj(c)), prefix, reducing) == []
  {
  }

  /** The stand-in of an object whose only field is a `name` referring to itself. */
  lemma SelfNamedStandIn(h: Heap, c: NodeId, base: string)
    requires c in h && h[c] == [Field("name", Obj(c))] && !Serialisable(h, c)
    requires IsEnvName(base + "version") && IsEnvName(base + "path")
    ensures LevelWrites(h, StandIn(h, c), base, {c}) ==
            [Write(base + "version", "undefined"), Write(base + "path", "undefined")]
  {
    SelfNamedStandInFields(h, c);
    SelfNamedStandInWrites(h, c, base);
  }

  lemma LoopStandIn()
    ensures LevelWrites(LoopHeap, StandIn(LoopHeap, 0), "npm_package_dep_", {0}) == LoopStandInWrites
  {
    LoopNotSerialisable();
    SelfNamedStandIn(LoopHeap, 0, "npm_package_dep_");
    assert "npm_package_dep_" + "version" == "npm_package_dep_version";
    assert "npm_package_dep_" + "path" == "npm_package_dep_path";
  }

  /** The corrected flattening finishes on the same input and exports the stand-in's other fields. */
  lemma MakeEnvCorrectedOnLoop()
    ensures LevelWrites(LoopHeap, NodeAt(LoopHeap, 1), PackagePrefix, {}) == LoopStandInWrites
  {
    var f := Field("dep", Obj(0));
    assert NodeAt(LoopHeap, 1) == [f];
    LevelWritesSingle(LoopHeap, f, PackagePrefix, {});
    DepFieldReduced();
  }

  lemma LevelWritesSingle(h: Heap, f: Field, prefix: string, reducing: set<NodeId>)
    requires reducing <= h.Keys
    ensures LevelWrites(h, [f], prefix, reducing) == LevelField(h, f, prefix, reducing)
  {
    assert [f][1..] == [];
  }

  lemma DepFieldReduced()
    ensures LevelField(LoopHeap, Field("dep", Obj(0)), PackagePrefix, {}) == LoopStandInWrites
  {
    LoopNotSerialisable();
    var reducing: set<NodeId> := {};
    ReducedToStandIn(LoopHeap, "dep", 0, PackagePrefix, reducing);
    DepKey();
    assert reducing + {0} == {0};
    LoopStandIn();
  }

  lemma DepKey()
    ensures Sanitize(PackagePrefix + "dep") + "_" == "npm_package_dep_"
  {
    assert IsEnvName(PackagePrefix) by {
      forall i | 0 <= i < |PackagePrefix| ensures IsEnvChar(PackagePrefix[i]) { }
    }
    SanitizeUnderPrefix(PackagePrefix, "dep");
    assert IsEnvName("dep");
    SanitizeFixesNames("dep");
  }

  /** A field holding an object that does not serialise, met for the first time, flattens its stand-in. */
  lemma ReducedToStandIn(h: Heap, key: string, c: NodeId, prefix: string, reducing: set<NodeId>)
    requires reducing <= h.Keys && !Skipped(key) && !Serialisable(h, c) && c !in reducing
    ensures c in h
    ensures LevelField(h, Field(key, Obj(c)), prefix, reducing) ==
            LevelWrites(h, StandIn(h, c), Sanitize(prefix + key) + "_", reducing + {c})
  {
    NotSerialisableIsInHeap(h, c);
  }

  // ------------------------------- as written, where it finishes: as corrected

  /** Reducing `c` to its stand-in finishes within `fuel` nested reductions. */
  predicate Finishes(h: Heap, c: NodeId, fuel: nat) {
    LevelWritesAsWritten(h, StandIn(h, c), "", fuel).Some?
  }

  /** Whether the flattening as written finishes does not depend on the prefix. */
  lemma {:induction false} AsWrittenPrefixFree(h: Heap, fields: seq<Field>, p: string, q: string, fuel: nat)
    ensures LevelWritesAsWritten(h, fields, p, fuel).Some? == LevelWritesAsWritten(h, fields, q, fuel).Some?
    decreases fuel, |fields|
  {
    if fields != [] {
      AsWrittenFieldPrefixFree(h, fields[0], p, q, fuel);
      AsWrittenPrefixFree(h, fields[1..], p, q, fuel);
    }
  }

  lemma {:induction false} AsWrittenFieldPrefixFree(h: Heap, f: Field, p: string, q: string, fuel: nat)
    ensures LevelFieldAsWritten(h, f, p, fuel).Some? == LevelFieldAsWritten(h, f, q, fuel).Some?
    decreases fuel, 0
  {
    if !Skipped(f.key) && f.value.Obj? && !Serialisable(h, f.value.id) && fuel > 0 {
      AsWrittenPrefixFree(h, StandIn(h, f.value.id), Sanitize(p + f.key) + "_", Sanitize(q + f.key) + "_", fuel - 1);
    }
  }

  /** A flattening that finishes gives the same writes with more fuel. */
  lemma {:induction false} AsWrittenMoreFuel(h: Heap, fields: seq<Field>, p: string, fuel: nat)
    ensures LevelWritesAsWritten(h, fields, p, fuel).Some? ==>
      LevelWritesAsWritten(h, fields, p, fuel + 1) == LevelWritesAsWritten(h, fields, p, fuel)
    decreases fuel, |fields|
  {
    if fields != [] {
      AsWrittenFieldMoreFuel(h, fields[0], p, fuel);
      AsWrittenMoreFuel(h, fields[1..], p, fuel);
    }
  }

  lemma {:induction false} AsWrittenFieldMoreFuel(h: Heap, f: Field, p: string, fuel: nat)
    ensures LevelFieldAsWritten(h, f, p, fuel).Some? ==>
      LevelFieldAsWritten(h, f, p, fuel + 1) == LevelFieldAsWritten(h, f, p, fuel)
    decreases fuel, 0
  {
    if !Skipped(f.key) && f.value.Obj? && !Serialisable(h, f.value.id) && fuel > 0 {
      AsWrittenMoreFuel(h, StandIn(h, f.value.id), Sanitize(p + f.key) + "_", fuel - 1);
    }
  }

  lemma {:induction false} AsWrittenEnoughFuel(h: Heap, fields: seq<Field>, p: string, m: nat, fuel: nat)
    requires m <= fuel
    ensures LevelWritesAsWritten(h, fields, p, m).Some? ==>
      LevelWritesAsWritten(h, fields, p, fuel) == LevelWritesAsWritten(h, fields, p, m)
    decreases fuel - m
  {
    if m < fuel {
      AsWrittenMoreFuel(h, fields, p, m);
      AsWrittenEnoughFuel(h, fields, p, m + 1, fuel);
    }
  }

  /** The least fuel with which reducing `c` finishes. */
  lemma {:induction false} LeastFuel(h: Heap, c: NodeId, fuel: nat) returns (m: nat)
    requires Finishes(h, c, fuel)
    ensures m <= fuel && Finishes(h, c, m) && (m == 0 || !Finishes(h, c, m - 1))
    decreases fuel
  {
    if fuel > 0 && Finishes(h, c, fuel - 1) {
      m := LeastFuel(h, c, fuel - 1);
    } else {
      m := fuel;
    }
  }

  /** No object being reduced could be reduced once more within the fuel left. */
  predicate ReducingExhausts(h: Heap, reducing: set<NodeId>, fuel: nat) {
    forall c :: c in reducing ==> fuel == 0 || !Finishes(h, c, fuel - 1)
  }

  /**
   * Where reducing an object again could not finish, the flattening as
   * written, when it finishes, writes what the corrected one writes.
   */
  lemma {:induction false} AsWrittenAgrees(h: Heap, fields: seq<Field>, p: string, fuel: nat, reducing: set<NodeId>)
    requires reducing <= h.Keys && ReducingExhausts(h, reducing, fuel)
    ensures LevelWritesAsWritten(h, fields, p, fuel).Some? ==>
      LevelWritesAsWritten(h, fields, p, fuel).value == LevelWrites(h, fields, p, reducing)
    decreases |h.Keys - reducing|, |fields|, 1
  {
    if fields != [] {
      AsWrittenFieldAgrees(h, fields[0], p, fuel, reducing);
      AsWrittenAgrees(h, fields[1..], p, fuel, reducing);
    }
  }

  lemma {:induction false} AsWrittenFieldAgrees(h: Heap, f: Field, p: string, fuel: nat, reducing: set<NodeId>)
    requires reducing <= h.Keys && ReducingExhausts(h, reducing, fuel)
    ensures LevelFieldAsWritten(h, f, p, fuel).Some? ==>
      LevelFieldAsWritten(h, f, p, fuel).value == LevelField(h, f, p, reducing)
    decreases |h.Keys - reducing|, 0, 1
  {
    if !Skipped(f.key) && f.value.Obj? && !Serialisable(h, f.value.id) && fuel > 0 {
      StandInFieldAsWritten(h, f, p, fuel);
      AsWrittenPrefixFree(h, StandIn(h, f.value.id), Sanitize(p + f.key) + "_", "", fuel - 1);
      if f.value.id !in reducing && Finishes(h, f.value.id, fuel - 1) {
        ReducedOnceAgrees(h, f, p, fuel, reducing);
      }
    }
  }

  /** The case where the field's object is reduced for the first time and the reduction finishes. */
  lemma {:induction false} ReducedOnceAgrees(h: Heap, f: Field, p: string, fuel: nat, reducing: set<NodeId>)
    requires reducing <= h.Keys && ReducingExhausts(h, reducing, fuel)
    requires !Skipped(f.key) && f.value.Obj? && !Serialisable(h, f.value.id) && fuel > 0
    requires f.value.id !in reducing && Finishes(h, f.value.id, fuel - 1)
    ensures LevelFieldAsWritten(h, f, p, fuel).Some?
    ensures LevelFieldAsWritten(h, f, p, fuel).value == LevelField(h, f, p, reducing)
    decreases |h.Keys - reducing|, 0, 0
  {
    var c := f.value.id;
    var key := Sanitize(p + f.key) + "_";
    StandInFieldAsWritten(h, f, p, fuel);
    var m := LeastFuelWrites(h, c, key, fuel - 1);
    ExhaustsAtLeastFuel(h, reducing, c, m, fuel);
    StandInFieldCorrected(h, f, p, reducing);
    assert h.Keys - (reducing + {c}) < h.Keys - reducing;
    AsWrittenAgrees(h, StandIn(h, c), key, m, reducing + {c});
  }

  /** The least fuel on which the reduction of `c` finishes writes what any larger fuel writes. */
  lemma LeastFuelWrites(h: Heap, c: NodeId, key: string, fuel: nat) returns (m: nat)
    requires Finishes(h, c, fuel)
    ensures m <= fuel && (m == 0 || !Finishes(h, c, m - 1))
    ensures LevelWritesAsWritten(h, StandIn(h, c), key, m).Some?
    ensures LevelWritesAsWritten(h, StandIn(h, c), key, fuel) == LevelWritesAsWritten(h, StandIn(h, c), key, m)
  {
    m := LeastFuel(h, c, fuel);
    AsWrittenPrefixFree(h, StandIn(h, c), key, "", m);
    AsWrittenEnoughFuel(h, StandIn(h, c), key, m, fuel);
  }

  lemma StandInFieldAsWritten(h: Heap, f: Field, p: string, fuel: nat)
    requires !Skipped(f.key) && f.value.Obj? && !Serialisable(h, f.value.id) && fuel > 0
    ensures LevelFieldAsWritten(h, f, p, fuel) == LevelWritesAsWritten(h, StandIn(h, f.value.id), Sanitize(p + f.key) + "_", fuel - 1)
  {
  }

  lemma StandInFieldCorrected(h: Heap, f: Field, p: string, reducing: set<NodeId>)
    requires reducing <= h.Keys && !Skipped(f.key) && f.value.Obj? && !Serialisable(h, f.value.id) && f.value.id !in reducing
    ensures f.value.id in h
    ensures LevelField(h, f, p, reducing) == LevelWrites(h, StandIn(h, f.value.id), Sanitize(p + f.key) + "_", reducing + {f.value.id})
  {
    NotSerialisableIsInHeap(h, f.value.id);
  }

  /** Reducing `c` with its least fuel `m`, no object then being reduced could be reduced again. */
  lemma ExhaustsAtLeastFuel(h: Heap, reducing: set<NodeId>, c: NodeId, m: nat, fuel: nat)
    requires fuel > 0 && m <= fuel - 1 && ReducingExhausts(h, reducing, fuel)
    requires m == 0 || !Finishes(h, c, m - 1)
    ensures ReducingExhausts(h, reducing + {c}, m)
  {
    forall c2 | c2 in reducing + {c} ensures m == 0 || !Finishes(h, c2, m - 1) {
      if c2 != c && m > 0 {
        AsWrittenEnoughFuel(h, StandIn(h, c2), "", m - 1, fuel - 1);
      }
    }
  }

  /**
   * Wherever makeEnv as written finishes, it writes what the corrected
   * flattening writes: the two differ only on packages where the code never
   * returns.
   */
  lemma AsWrittenFinishesAsCorrected(h: Heap, fields: seq<Field>, prefix: string, fuel: nat)
    ensures LevelWritesAsWritten(h, fields, prefix, fuel).Some? ==>
      LevelWritesAsWritten(h, fields, prefix, fuel).value == LevelWrites(h, fields, prefix, {})
  {
    AsWrittenAgrees(h, fields, prefix, fuel, {});
  }
}
