/** The optional value used by every component in place of a Go nil, and maps built from a function. */
module Wrappers {

  datatype Option<+T> = None | Some(value: T)

  /** The map that gives each of the keys what g does. It is built key by key, as Dafny 4.11 takes
      equal map comprehensions to agree outside their keys too. */
  ghost function Tabulate<K, V>(keys: set<K>, g: K -> V): (m: map<K, V>)
    ensures m.Keys == keys
    ensures forall k :: k in keys ==> m[k] == g(k)
  {
    if keys == {} then map[]
    else
      var k :| k in keys;
      Tabulate(keys - {k}, g)[k := g(k)]
  }
}
