/** Counting arguments on finite sets. */
module Collections {
  lemma Pick<T>(s: set<T>) returns (x: T)
    requires s != {}
    ensures x in s
  {
    x :| x in s;
  }

  /** A finite set is no larger than a set that a function maps onto it. */
  lemma {:induction false} ImageNoLarger<K, V>(keys: set<K>, values: set<V>, f: map<K, V>)
    requires keys <= f.Keys
    requires forall v | v in values :: exists k :: k in keys && f[k] == v
    ensures |values| <= |keys|
  {
    if values != {} {
      var v := Pick(values);
      var k :| k in keys && f[k] == v;
      forall w | w in values - {v} ensures exists j :: j in keys - {k} && f[j] == w {
        var j :| j in keys && f[j] == w;
        assert j in keys - {k};
      }
      ImageNoLarger(keys - {k}, values - {v}, f);
    }
  }

  /** A set that maps one-to-one into another is no larger than it. */
  lemma {:induction false} InjectionNoLarger<K, V>(keys: set<K>, values: set<V>, f: map<K, V>)
    requires keys <= f.Keys && forall k | k in keys :: f[k] in values
    requires forall j, k | j in keys && k in keys && j != k :: f[j] != f[k]
    ensures |keys| <= |values|
  {
    if keys != {} {
      var k := Pick(keys);
      InjectionNoLarger(keys - {k}, values - {f[k]}, f);
    }
  }

  lemma {:induction false} SubsetNoLarger<T>(a: set<T>, b: set<T>)
    requires a <= b
    ensures |a| <= |b|
  {
    if a != {} {
      var x := Pick(a);
      SubsetNoLarger(a - {x}, b - {x});
    }
  }
}
