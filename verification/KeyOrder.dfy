/** The order in which a key-value store iterator visits its keys. */
module KeyOrder {
  import opened Bytes

  predicate Below(a: bytes, b: bytes) {
    a == [] || (b != [] && (a[0] < b[0] || (a[0] == b[0] && Below(a[1..], b[1..]))))
  }

  lemma {:induction false} BelowTotal(a: bytes, b: bytes)
    ensures Below(a, b) || Below(b, a)
  {
    if a != [] && b != [] {
      BelowTotal(a[1..], b[1..]);
    }
  }

  lemma {:induction false} BelowAntisymmetric(a: bytes, b: bytes)
    requires Below(a, b) && Below(b, a)
    ensures a == b
  {
    if a != [] {
      BelowAntisymmetric(a[1..], b[1..]);
      assert a == [a[0]] + a[1..] && b == [b[0]] + b[1..];
    }
  }

  lemma {:induction false} BelowTransitive(a: bytes, b: bytes, c: bytes)
    requires Below(a, b) && Below(b, c)
    ensures Below(a, c)
  {
    if a != [] && a[0] == b[0] == c[0] {
      BelowTransitive(a[1..], b[1..], c[1..]);
    }
  }

  /** The order of the bytes: a prefix comes first, and otherwise the first byte that differs decides. */
  lemma {:induction false} BelowExact(a: bytes, b: bytes)
    ensures Below(a, b) <==> a <= b || exists i :: 0 <= i < |a| && i < |b| && a[..i] == b[..i] && a[i] < b[i]
  {
    forall i | 0 < i < |a| && i < |b| ensures a[..i] == b[..i] ==> a[0] == b[0] {
      assert a[..i][0] == a[0] && b[..i][0] == b[0];
    }
    if a != [] && b != [] && a[0] == b[0] {
      var a', b' := a[1..], b[1..];
      BelowExact(a', b');
      assert a == [a[0]] + a' && b == [b[0]] + b';
      if i :| 0 <= i < |a'| && i < |b'| && a'[..i] == b'[..i] && a'[i] < b'[i] {
        assert a[..i + 1] == [a[0]] + a'[..i] && b[..i + 1] == [b[0]] + b'[..i];
        assert a[i + 1] < b[i + 1];
      }
      if i :| 0 <= i < |a| && i < |b| && a[..i] == b[..i] && a[i] < b[i] {
        assert a'[..i - 1] == a[..i][1..] && b'[..i - 1] == b[..i][1..];
        assert a'[i - 1] < b'[i - 1];
      }
    } else if a != [] && b != [] {
      assert a[..0] == b[..0];
    }
  }

  predicate IsLeast(m: bytes, keys: set<bytes>) {
    m in keys && forall k :: k in keys ==> Below(m, k)
  }

  lemma {:induction false} LeastExists(keys: set<bytes>)
    requires keys != {}
    ensures exists m :: IsLeast(m, keys)
  {
    var x :| x in keys;
    if keys == {x} {
      BelowTotal(x, x);
      assert IsLeast(x, keys);
    } else {
      var rest := keys - {x};
      LeastExists(rest);
      var m :| IsLeast(m, rest);
      BelowTotal(x, m);
      BelowTotal(x, x);
      if Below(x, m) {
        forall k | k in rest ensures Below(x, k) {
          BelowTransitive(x, m, k);
        }
        assert IsLeast(x, keys);
      } else {
        assert IsLeast(m, keys);
      }
    }
  }

  /** The keys in iteration order: every key once, in increasing order. */
  function SortedKeys(keys: set<bytes>): (ks: seq<bytes>)
    ensures |ks| == |keys|
    ensures forall k :: k in ks <==> k in keys
    ensures forall i, j :: 0 <= i < j < |ks| ==> Below(ks[i], ks[j]) && ks[i] != ks[j]
    decreases |keys|
  {
    if keys == {} then []
    else
      assert exists m :: IsLeast(m, keys) by { LeastExists(keys); }
      assert forall m, n :: IsLeast(m, keys) && IsLeast(n, keys) ==> m == n by {
        forall m, n | IsLeast(m, keys) && IsLeast(n, keys) ensures m == n {
          BelowAntisymmetric(m, n);
        }
      }
      var m :| IsLeast(m, keys);
      [m] + SortedKeys(keys - {m})
  }

  function ValuesAt<V>(store: map<bytes, V>, keys: seq<bytes>): (values: seq<V>)
    requires forall k :: k in keys ==> k in store
    ensures |values| == |keys| && forall i :: 0 <= i < |keys| ==> values[i] == store[keys[i]]
  {
    seq(|keys|, i requires 0 <= i < |keys| => store[keys[i]])
  }

  lemma ValuesAtSnoc<V>(store: map<bytes, V>, keys: seq<bytes>)
    requires keys != [] && forall k :: k in keys ==> k in store
    ensures ValuesAt(store, keys)[..|keys| - 1] == ValuesAt(store, keys[..|keys| - 1])
  {
  }

  function Restricted<V>(store: map<bytes, V>, keys: seq<bytes>): map<bytes, V>
    requires forall k :: k in keys ==> k in store
  {
    map k | k in keys :: store[k]
  }

  lemma RestrictedSnoc<V>(store: map<bytes, V>, keys: seq<bytes>)
    requires keys != [] && forall k :: k in keys ==> k in store
    ensures var last := keys[|keys| - 1];
            Restricted(store, keys) == Restricted(store, keys[..|keys| - 1])[last := store[last]]
  {
    assert keys == keys[..|keys| - 1] + [keys[|keys| - 1]];
  }

  lemma RestrictedToAll<V>(store: map<bytes, V>)
    ensures Restricted(store, SortedKeys(store.Keys)) == store
  {
  }

  /** A store's values in iteration order. */
  function InKeyOrder<V>(store: map<bytes, V>): (values: seq<V>)
    ensures |values| == |SortedKeys(store.Keys)|
  {
    ValuesAt(store, SortedKeys(store.Keys))
  }

  method CollectValues<V>(store: map<bytes, V>, keys: seq<bytes>) returns (values: seq<V>)
    requires forall k :: k in keys ==> k in store
    ensures values == ValuesAt(store, keys)
  {
    values := [];
    for i := 0 to |keys|
      invariant |values| == i && forall j :: 0 <= j < i ==> values[j] == store[keys[j]]
    {
      values := values + [store[keys[i]]];
    }
  }

  method CollectInKeyOrder<V>(store: map<bytes, V>) returns (values: seq<V>)
    ensures values == InKeyOrder(store)
  {
    values := CollectValues(store, SortedKeys(store.Keys));
  }
}
