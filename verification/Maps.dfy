/** Maps that grow. */
module Maps {

  /** Keys once in the map stay, with what they are mapped to. */
  ghost predicate Extends<K, V>(m: map<K, V>, more: map<K, V>) {
    forall k :: k in m ==> k in more && more[k] == m[k]
  }

  lemma ExtendsAt<K, V>(m: map<K, V>, more: map<K, V>, k: K)
    requires Extends(m, more) && k in m
    ensures k in more && more[k] == m[k]
  {
  }
}
