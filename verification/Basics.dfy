/** Small types and facts that several modules share. */
module Basics {

  datatype Option<+T> = None | Some(value: T)

  datatype Result<+T, +E> = Ok(value: T) | Err(error: E)

  lemma SameSet<T>(a: set<T>, b: set<T>)
    requires a <= b && b <= a
    ensures a == b
  {
  }

  lemma Associate<T>(a: seq<T>, b: seq<T>, c: seq<T>)
    ensures (a + b) + c == a + (b + c)
  {
  }

  lemma HeadAndTail<T>(s: seq<T>)
    requires s != []
    ensures s == [s[0]] + s[1..]
    ensures |s| == 1 ==> s == [s[0]]
  {
  }

  lemma InitAndLast<T>(s: seq<T>)
    requires s != []
    ensures s == s[..|s| - 1] + [s[|s| - 1]]
  {
  }

  lemma OneUpdated<K, V>(a: map<K, V>, b: map<K, V>, k: K)
    requires k in b && b.Keys == a.Keys + {k}
    requires forall other :: other in a && other != k ==> b[other] == a[other]
    ensures b == a[k := b[k]]
  {
  }

  /** The values of `f` on `keys`. */
  ghost function Tabulate<K, V>(keys: set<K>, f: K --> V): (m: map<K, V>)
    requires forall k :: k in keys ==> f.requires(k)
    ensures m.Keys == keys
    ensures forall k :: k in keys ==> m[k] == f(k)
  {
    if keys == {} then map[] else
    var k :| k in keys;
    Tabulate(keys - {k}, f)[k := f(k)]
  }
}
