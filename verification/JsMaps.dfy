/** JavaScript values the client code leans on: optional values with `??`, and `Map`,
    whose iteration order is the order in which keys were first inserted. */
module JsMaps {

  type Id = string

  datatype Option<+T> = None | Some(value: T) {
    /** `this ?? other` */
    function Or(other: Option<T>): Option<T> {
      if Some? then this else other
    }
  }

  /** Two finite maps hold the same thing at `k`. */
  ghost predicate SameAt<K, V>(m: map<K, V>, n: map<K, V>, k: K) {
    && (k in m <==> k in n)
    && (k in m ==> m[k] == n[k])
  }

  // ----- Insertion order -----

  function AddKey<K(==)>(keys: seq<K>, k: K): seq<K> {
    if k in keys then keys else keys + [k]
  }

  /** The key order after inserting `ks` one by one. */
  function AddKeys<K(==)>(keys: seq<K>, ks: seq<K>): seq<K> {
    if ks == [] then keys else AddKey(AddKeys(keys, ks[..|ks| - 1]), ks[|ks| - 1])
  }

  ghost predicate Distinct<K>(keys: seq<K>) {
    forall i, j :: 0 <= i < j < |keys| ==> keys[i] != keys[j]
  }

  lemma AddKeysSnoc<K>(keys: seq<K>, ks: seq<K>, k: K)
    ensures AddKeys(keys, ks + [k]) == AddKey(AddKeys(keys, ks), k)
  {
    assert (ks + [k])[..|ks|] == ks;
  }

  lemma {:induction false} AddKeysConcat<K>(keys: seq<K>, ks: seq<K>, ls: seq<K>)
    ensures AddKeys(keys, ks + ls) == AddKeys(AddKeys(keys, ks), ls)
    decreases ls
  {
    if ls == [] {
      assert ks + ls == ks;
    } else {
      var front := ls[..|ls| - 1];
      AddKeysConcat(keys, ks, front);
      assert ks + ls == (ks + front) + [ls[|ls| - 1]];
      AddKeysSnoc(keys, ks + front, ls[|ls| - 1]);
    }
  }

  lemma {:induction false} AddKeysMember<K>(keys: seq<K>, ks: seq<K>, k: K)
    ensures k in AddKeys(keys, ks) <==> k in keys || k in ks
    decreases ks
  {
    if ks != [] {
      var front := ks[..|ks| - 1];
      AddKeysMember(keys, front, k);
      assert ks == front + [ks[|ks| - 1]];
    }
  }

  lemma {:induction false} AddKeysDistinct<K>(keys: seq<K>, ks: seq<K>)
    requires Distinct(keys)
    ensures Distinct(AddKeys(keys, ks))
    decreases ks
  {
    if ks != [] {
      AddKeysDistinct(keys, ks[..|ks| - 1]);
    }
  }

  lemma {:induction false} AddKeysPresent<K>(keys: seq<K>, ks: seq<K>)
    requires forall k :: k in ks ==> k in keys
    ensures AddKeys(keys, ks) == keys
    decreases ks
  {
    if ks != [] {
      AddKeysPresent(keys, ks[..|ks| - 1]);
    }
  }

  /** Inserting a whole list again after one of its prefixes changes nothing: the order is
      fixed by first insertions. */
  lemma AddKeysReplay<K>(keys: seq<K>, prefix: seq<K>, whole: seq<K>)
    requires prefix <= whole
    ensures AddKeys(AddKeys(keys, prefix), whole) == AddKeys(keys, whole)
  {
    var rest := whole[|prefix|..];
    assert whole == prefix + rest;
    var seen := AddKeys(keys, prefix);
    forall k | k in prefix ensures k in seen { AddKeysMember(keys, prefix, k); }
    AddKeysPresent(seen, prefix);
    AddKeysConcat(seen, prefix, rest);
    AddKeysConcat(keys, prefix, rest);
  }

  /** Inserting `k` into the newer half or into the joined map gives the same joined order. */
  lemma AddKeyInside<K>(older: seq<K>, newer: seq<K>, k: K)
    ensures AddKeys(older, AddKey(newer, k)) == AddKey(AddKeys(older, newer), k)
  {
    AddKeysMember(older, newer, k);
    if k !in newer {
      AddKeysSnoc(older, newer, k);
    }
  }

  lemma {:induction false} AddKeysAssociative<K>(a: seq<K>, b: seq<K>, c: seq<K>)
    ensures AddKeys(a, AddKeys(b, c)) == AddKeys(AddKeys(a, b), c)
    decreases c
  {
    if c != [] {
      AddKeysAssociative(a, b, c[..|c| - 1]);
      AddKeyInside(a, AddKeys(b, c[..|c| - 1]), c[|c| - 1]);
    }
  }

  lemma {:induction false} AddKeysFromEmpty<K>(keys: seq<K>)
    requires Distinct(keys)
    ensures AddKeys([], keys) == keys
    decreases keys
  {
    if keys != [] {
      var front := keys[..|keys| - 1];
      AddKeysFromEmpty(front);
      assert keys == front + [keys[|keys| - 1]];
    }
  }

  // ----- Lists -----

  function Members<T>(list: seq<T>): set<T> {
    set i | 0 <= i < |list| :: list[i]
  }

  lemma MembersConcat<T>(a: seq<T>, b: seq<T>)
    ensures Members(a + b) == Members(a) + Members(b)
  {
    forall x | x in Members(a) ensures x in Members(a + b) {
      var i :| 0 <= i < |a| && a[i] == x;
      assert (a + b)[i] == x;
    }
    forall x | x in Members(b) ensures x in Members(a + b) {
      var i :| 0 <= i < |b| && b[i] == x;
      assert (a + b)[|a| + i] == x;
    }
  }

  lemma Regroup<T>(a: seq<T>, b: seq<T>, c: seq<T>)
    ensures (a + b) + c == a + (b + c)
  {
  }

  // ----- Maps -----

  datatype JsMap<K(==), V> = JsMap(keys: seq<K>, vals: map<K, V>) {
    /** Every key listed once, and listed exactly when it has a value. */
    ghost predicate Valid() {
      && Distinct(keys)
      && (forall k | k in keys :: k in vals)
      && (forall k | k in vals :: k in keys)
    }

    predicate Has(k: K) {
      k in vals
    }

    function Set(k: K, v: V): JsMap<K, V> {
      JsMap(AddKey(keys, k), vals[k := v])
    }

    /** `new Map([...this, ...newer])` */
    function Joined(newer: JsMap<K, V>): JsMap<K, V> {
      JsMap(AddKeys(keys, newer.keys), vals + newer.vals)
    }
  }

  lemma SetValid<K, V>(m: JsMap<K, V>, k: K, v: V)
    requires m.Valid()
    ensures m.Set(k, v).Valid()
  {
  }

  lemma SetInside<K, V>(older: JsMap<K, V>, newer: JsMap<K, V>, k: K, v: V)
    ensures older.Joined(newer.Set(k, v)) == older.Joined(newer).Set(k, v)
  {
    AddKeyInside(older.keys, newer.keys, k);
  }

  lemma JoinedAssociative<K, V>(a: JsMap<K, V>, b: JsMap<K, V>, c: JsMap<K, V>)
    ensures a.Joined(b.Joined(c)) == a.Joined(b).Joined(c)
  {
    AddKeysAssociative(a.keys, b.keys, c.keys);
    assert a.vals + (b.vals + c.vals) == (a.vals + b.vals) + c.vals;
  }
}
