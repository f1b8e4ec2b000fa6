/** Helpers on Dafny's own collections. */
module Basics {

  datatype Option<+T> = None | Some(value: T)

  lemma Overwrite<K, V>(m: map<K, V>, k: K, a: V, b: V)
    ensures m[k := a][k := b] == m[k := b]
  {
  }

  /** One more member of a set is visited. */
  lemma MoveOne<T>(all: set<T>, done: set<T>, todo: set<T>, k: T)
    requires done !! todo && done + todo == all && k in todo
    ensures done + {k} !! todo - {k} && (done + {k}) + (todo - {k}) == all
  {
  }
}
