/** Small value types and string helpers shared by the lookup pipeline. */
module Common {

  /** A value that may be absent: an attribute that is not there, a JSON member that is missing. */
  datatype Option<+T> = None | Some(value: T)

  /** The outcome of an extraction: a value, or the reason it could not be computed. */
  datatype Result<+T, +E> = Ok(value: T) | Err(error: E)

  /** `s` begins with `prefix`, compared character by character (an ordinal comparison). */
  predicate StartsWith(s: string, prefix: string)
  {
    |prefix| <= |s| && s[..|prefix|] == prefix
  }

  /** The rest of `s` after `prefix`, when `s` begins with `prefix`. */
  function StripPrefix(s: string, prefix: string): (r: Option<string>)
    ensures r.Some? <==> StartsWith(s, prefix)
    ensures r.Some? ==> prefix + r.value == s
  {
    if StartsWith(s, prefix) then
      assert prefix + s[|prefix|..] == s[..|prefix|] + s[|prefix|..];
      Some(s[|prefix|..])
    else None
  }

  /** Stripping a prefix undoes prepending it, and only a concatenation strips to a given rest. */
  lemma StripPrefixConcat(s: string, prefix: string, rest: string)
    ensures StripPrefix(s, prefix) == Some(rest) <==> s == prefix + rest
  {
    if s == prefix + rest {
      assert s[..|prefix|] == prefix;
      assert s[|prefix|..] == rest;
    }
  }
}
