/**
 * The kind-tag lookup both factories share: a constant table from a config's
 * `kind` to a constructor, and a `ConfigError` for a kind it does not hold.
 */
module Registry {
  import opened Wrappers
  import opened Errors

  /** The message of the error for an unknown kind. */
  function NotFoundMessage(what: string, kind: string): string
  {
    what + " kind not found: " + kind
  }

  /** `if (!table[kind]) throw new ConfigError(`<what> kind not found: <kind>`)`,
      otherwise the entry for `kind`. */
  function Lookup<K>(table: map<string, K>, kind: string, what: string): (r: Result<K, Error>)
    ensures r.Success? <==> kind in table
    ensures r.Success? ==> r.value == table[kind]
    ensures r.Failure? ==> r.error == ConfigError(NotFoundMessage(what, kind))
  {
    if kind in table then Success(table[kind])
    else Failure(NewConfigError(NotFoundMessage(what, kind)))
  }

  /** The error message names the offending kind, so two different unknown
      kinds are reported differently. */
  lemma {:induction false} LookupReportsKind<K>(table: map<string, K>, k1: string, k2: string, what: string)
    requires k1 !in table && k2 !in table && k1 != k2
    ensures Lookup(table, k1, what).error != Lookup(table, k2, what).error
  {
    var prefix := what + " kind not found: ";
    var m1, m2 := prefix + k1, prefix + k2;
    assert m1[|prefix|..] == k1 && m2[|prefix|..] == k2;
  }
}
