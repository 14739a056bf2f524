/**
 * Configuration constants and the two key formats the application uses in the
 * key-value store. The TTLs are the defaults used when the environment does
 * not override them.
 */
module Settings {

  const KeyPrefix: string := "aviapp:"

  /** Lifetime in seconds of the token key. */
  const TokenTtl: nat := 3600

  /** Lifetime in seconds of the session hash; shorter than the token's. */
  const SessionTtl: nat := 1800

  const TokenTag: string := "auth_token:"
  const SessionTag: string := "session:"

  /** `aviapp:auth_token:<token>`, which maps to the user id. */
  function TokenKey(token: string): (k: string)
    ensures |k| == |KeyPrefix| + |TokenTag| + |token|
    ensures k[|KeyPrefix| + |TokenTag|..] == token
  {
    KeyPrefix + TokenTag + token
  }

  /** `aviapp:session:<token>`, the session hash. */
  function SessionKey(token: string): (k: string)
    ensures |k| == |KeyPrefix| + |SessionTag| + |token|
    ensures k[|KeyPrefix| + |SessionTag|..] == token
  {
    KeyPrefix + SessionTag + token
  }

  /** No token key is ever a session key, whatever the two tokens. */
  lemma TokenAndSessionKeysDiffer(t: string, u: string)
    ensures TokenKey(t) != SessionKey(u)
  {
    assert TokenKey(t)[7] == 'a';
    assert SessionKey(u)[7] == 's';
  }

  /** Each key format determines its token. */
  lemma KeysInjective(t: string, u: string)
    ensures TokenKey(t) == TokenKey(u) ==> t == u
    ensures SessionKey(t) == SessionKey(u) ==> t == u
  {
  }
}
