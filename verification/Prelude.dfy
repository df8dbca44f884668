/** Shared by all modules. */
module Prelude {
  datatype Option<+T> = None | Some(value: T)

  lemma UpdateWithItself<K, V>(m: map<K, V>, k: K)
    requires k in m
    ensures m[k := m[k]] == m
  {
  }

  lemma Rebound<K, V>(m: map<K, V>, k: K, v: V, w: V)
    ensures m[k := v][k := w] == m[k := w]
  {
  }

  lemma TimesKeepsOrder(a: int, b: int, t: nat)
    requires a <= b
    ensures a * t <= b * t
  {
  }
}
