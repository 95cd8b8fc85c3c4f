/** Environment variable names: `replace(/[^a-zA-Z0-9_]/g, '_')` (index.js:371, 427, 430, 433). */
module EnvKeys {

  /** A character the environment-name pattern `[a-zA-Z0-9_]` accepts. */
  predicate IsEnvChar(c: char) {
    ('A' <= c <= 'Z') || ('a' <= c <= 'z') || ('0' <= c <= '9') || c == '_'
  }

  predicate IsEnvName(s: string) {
    forall i :: 0 <= i < |s| ==> IsEnvChar(s[i])
  }

  /** Every character outside `[a-zA-Z0-9_]` becomes `_`; the others stay where they are. */
  function Sanitize(s: string): (r: string)
    ensures |r| == |s|
    ensures IsEnvName(r)
    ensures forall i :: 0 <= i < |s| ==> (r[i] == s[i] <==> IsEnvChar(s[i]))
    ensures forall i :: 0 <= i < |s| && !IsEnvChar(s[i]) ==> r[i] == '_'
    decreases |s|
  {
    if s == [] then []
    else [if IsEnvChar(s[0]) then s[0] else '_'] + Sanitize(s[1..])
  }

  /** A string that is already a valid name is left alone. */
  lemma SanitizeFixesNames(s: string)
    requires IsEnvName(s)
    ensures Sanitize(s) == s
  {
  }

  /** Sanitising twice is sanitising once. */
  lemma SanitizeIdempotent(s: string)
    ensures Sanitize(Sanitize(s)) == Sanitize(s)
  {
    SanitizeFixesNames(Sanitize(s));
  }

  /** Sanitising works character by character, so it distributes over concatenation. */
  lemma SanitizeAppend(a: string, b: string)
    ensures Sanitize(a + b) == Sanitize(a) + Sanitize(b)
  {
    var l, r := Sanitize(a + b), Sanitize(a) + Sanitize(b);
    forall i | 0 <= i < |a + b| ensures l[i] == r[i] {
      if i < |a| { assert (a + b)[i] == a[i]; } else { assert (a + b)[i] == b[i - |a|]; }
    }
  }

  /** A prefix that is already a valid name survives sanitising of `prefix + key`. */
  lemma SanitizeUnderPrefix(prefix: string, key: string)
    requires IsEnvName(prefix)
    ensures Sanitize(prefix + key) == prefix + Sanitize(key)
  {
    SanitizeAppend(prefix, key);
    SanitizeFixesNames(prefix);
  }
}
