/** The two process-wide encoding switches of the mailer and the decision that
    turns an environment value into a boolean. The environment itself is a
    parameter: a map from variable names to values, where a missing name reads
    as the empty string, as `os.Getenv` reports it.
 */
module Env {
  import opened Text

  const WithoutFragmentKey := "GOTRUE_WITHOUT_FRAGMENT"
  const AddUrlTypeKey := "GOTRUE_ADD_URL_TYPE"

  /** The value decision of `getEnvBool`: empty is false, and otherwise the
      value must read "true" once lower-cased. */
  function EnvBool(v: string): (b: bool)
    ensures b <==> |v| == 4
                   && (v[0] == 't' || v[0] == 'T')
                   && (v[1] == 'r' || v[1] == 'R')
                   && (v[2] == 'u' || v[2] == 'U')
                   && (v[3] == 'e' || v[3] == 'E')
  {
    if |v| == 0 then false
    else if Lower(v) != "true" then false
    else
      true
  }

  /** The length test in front of the comparison changes nothing: the empty
      string never lower-cases to "true". */
  lemma EnvBoolIsLowerEquality(v: string)
    ensures EnvBool(v) <==> Lower(v) == "true"
  {
    if |v| == 4 {
      var l := Lower(v);
      LowerCharInverse(v[0], 't');
      LowerCharInverse(v[1], 'r');
      LowerCharInverse(v[2], 'u');
      LowerCharInverse(v[3], 'e');
      if l == "true" {
        assert l[0] == 't' && l[1] == 'r' && l[2] == 'u' && l[3] == 'e';
      }
    }
  }

  /** The switches that shape every link; `addURLType` matters only when
      `withoutFragment` is on. */
  datatype EncodingMode = EncodingMode(withoutFragment: bool, addURLType: bool)

  /** `os.Getenv`: the value of `key`, or the empty string when it is unset. */
  function Getenv(env: map<string, string>, key: string): string
  {
    if key in env then env[key] else ""
  }

  /** The package variables `withoutFragment` and `addURLType`: each switch is
      on exactly when its variable is set to some casing of "true", and the
      two are read independently of each other. */
  function ModeFromEnv(env: map<string, string>): (mode: EncodingMode)
    ensures mode.withoutFragment <==> WithoutFragmentKey in env && Lower(env[WithoutFragmentKey]) == "true"
    ensures mode.addURLType <==> AddUrlTypeKey in env && Lower(env[AddUrlTypeKey]) == "true"
  {
    EnvBoolIsLowerEquality(Getenv(env, WithoutFragmentKey));
    EnvBoolIsLowerEquality(Getenv(env, AddUrlTypeKey));
    EncodingMode(EnvBool(Getenv(env, WithoutFragmentKey)), EnvBool(Getenv(env, AddUrlTypeKey)))
  }
}
