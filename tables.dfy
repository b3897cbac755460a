/**
 * Python's `defaultdict(int)` count tables and `dict` probability tables as
 * Dafny maps, with the sums the probability formulas are built from.
 */
module Tables {

  /** `counts[k]` on a `defaultdict(int)` read: an absent key counts 0. */
  function Get<K>(m: map<K, nat>, k: K): nat {
    if k in m then m[k] else 0
  }

  /** `counts.get(k, default)`: no insertion, the given default for an absent key. */
  function GetOr<K>(m: map<K, nat>, k: K, default: nat): nat {
    if k in m then m[k] else default
  }

  /** `table.get(k, default)` on a probability table. */
  function GetRealOr<K>(m: map<K, real>, k: K, default: real): real {
    if k in m then m[k] else default
  }

  /** `counts[k] += 1` on a `defaultdict(int)`. */
  function Increment<K>(m: map<K, nat>, k: K): (r: map<K, nat>)
    ensures r.Keys == m.Keys + {k}
    ensures Get(r, k) == Get(m, k) + 1
    ensures forall j :: j in m && j != k ==> r[j] == m[j]
  {
    m[k := Get(m, k) + 1]
  }

  /** The table after `counts[k] += 1` for every `k` of `keys`, in order. */
  function AddAll<K>(m: map<K, nat>, keys: seq<K>): map<K, nat>
    decreases |keys|
  {
    if keys == [] then m else AddAll(Increment(m, keys[0]), keys[1..])
  }

  /** One more increment at the end of the run. */
  lemma {:induction false} AddAllSnoc<K>(m: map<K, nat>, keys: seq<K>, k: K)
    ensures AddAll(m, keys + [k]) == Increment(AddAll(m, keys), k)
    decreases |keys|
  {
    if keys == [] {
      assert keys + [k] == [k];
    } else {
      assert (keys + [k])[1..] == keys[1..] + [k];
      AddAllSnoc(Increment(m, keys[0]), keys[1..], k);
    }
  }

  /** The run over one more element of `keys`. */
  lemma AddAllPrefixStep<K>(m: map<K, nat>, keys: seq<K>, i: nat)
    requires i < |keys|
    ensures AddAll(m, keys[..i + 1]) == Increment(AddAll(m, keys[..i]), keys[i])
  {
    assert keys[..i + 1] == keys[..i] + [keys[i]];
    AddAllSnoc(m, keys[..i], keys[i]);
  }

  /** Each key grows by the number of times it is incremented; no other key changes. */
  lemma {:induction false} AddAllGet<K>(m: map<K, nat>, keys: seq<K>, k: K)
    ensures Get(AddAll(m, keys), k) == Get(m, k) + multiset(keys)[k]
    decreases |keys|
  {
    if keys != [] {
      AddAllGet(Increment(m, keys[0]), keys[1..], k);
      assert keys == [keys[0]] + keys[1..];
    }
  }

  /** The keys after the run: the old keys and every incremented key. */
  lemma {:induction false} AddAllKeys<K>(m: map<K, nat>, keys: seq<K>)
    ensures AddAll(m, keys).Keys == m.Keys + set k | k in keys
    decreases |keys|
  {
    if keys != [] {
      AddAllKeys(Increment(m, keys[0]), keys[1..]);
      assert keys == [keys[0]] + keys[1..];
      assert (set k | k in keys) == {keys[0]} + set k | k in keys[1..];
    }
  }

  // ---------------------------------------------------------------------------
  // Sums over the keys of a table

  /** The sum of `m[k]` over `k` in `keys`: `sum(...)` over a part of a count table. */
  ghost function SumOver<K>(m: map<K, nat>, keys: set<K>): nat
    requires keys <= m.Keys
    decreases keys
  {
    if keys == {} then 0 else var k :| k in keys; m[k] + SumOver(m, keys - {k})
  }

  /** `sum(counts.values())`. */
  ghost function Total<K>(m: map<K, nat>): nat {
    SumOver(m, m.Keys)
  }

  /** Any key can be taken out of the sum first. */
  lemma {:induction false} SumOverRemove<K>(m: map<K, nat>, keys: set<K>, x: K)
    requires keys <= m.Keys && x in keys
    ensures SumOver(m, keys) == m[x] + SumOver(m, keys - {x})
    decreases keys
  {
    var k :| k in keys && SumOver(m, keys) == m[k] + SumOver(m, keys - {k});
    if k != x {
      SumOverRemove(m, keys - {k}, x);
      SumOverRemove(m, keys - {x}, k);
      assert keys - {k} - {x} == keys - {x} - {k};
    }
  }

  /** The sum only depends on the values at the summed keys. */
  lemma {:induction false} SumOverAgree<K>(m1: map<K, nat>, m2: map<K, nat>, keys: set<K>)
    requires keys <= m1.Keys && keys <= m2.Keys
    requires forall k :: k in keys ==> m1[k] == m2[k]
    ensures SumOver(m1, keys) == SumOver(m2, keys)
    decreases keys
  {
    if keys != {} {
      var k :| k in keys && SumOver(m1, keys) == m1[k] + SumOver(m1, keys - {k});
      SumOverRemove(m2, keys, k);
      SumOverAgree(m1, m2, keys - {k});
    }
  }

  /** No single count exceeds the sum it is part of. */
  lemma SumOverBounds<K>(m: map<K, nat>, keys: set<K>, x: K)
    requires keys <= m.Keys && x in keys
    ensures m[x] <= SumOver(m, keys)
  {
    SumOverRemove(m, keys, x);
  }

  /** One increment adds one to the total. */
  lemma IncrementTotal<K>(m: map<K, nat>, k: K)
    ensures Total(Increment(m, k)) == Total(m) + 1
  {
    var r := Increment(m, k);
    SumOverRemove(r, r.Keys, k);
    SumOverAgree(m, r, m.Keys - {k});
    assert r.Keys - {k} == m.Keys - {k};
    if k in m {
      SumOverRemove(m, m.Keys, k);
    } else {
      assert m.Keys - {k} == m.Keys;
    }
  }

  /** A run of increments adds its length to the total. */
  lemma {:induction false} AddAllTotal<K>(m: map<K, nat>, keys: seq<K>)
    ensures Total(AddAll(m, keys)) == Total(m) + |keys|
    decreases |keys|
  {
    if keys != [] {
      IncrementTotal(m, keys[0]);
      AddAllTotal(Increment(m, keys[0]), keys[1..]);
    }
  }

  /** `sum(counts.values())`, accumulated key by key. */
  method SumValues<K>(m: map<K, nat>) returns (total: nat)
    ensures total == Total(m)
  {
    total := 0;
    var rest := m.Keys;
    while rest != {}
      invariant rest <= m.Keys
      invariant total + SumOver(m, rest) == Total(m)
      decreases rest
    {
      var k :| k in rest;
      SumOverRemove(m, rest, k);
      total := total + m[k];
      rest := rest - {k};
    }
  }

  /** A map holding a key is not empty. */
  lemma CardPositive<K, V>(m: map<K, V>, k: K)
    requires k in m
    ensures |m| > 0
  {
    assert k in m.Keys;
  }

  /** The part of `m` at `keys`: the entries a key-by-key fill has written so far. */
  function Restrict<K, V>(m: map<K, V>, keys: set<K>): (r: map<K, V>)
    requires keys <= m.Keys
    ensures r.Keys == keys
    ensures forall k :: k in keys ==> r[k] == m[k]
  {
    map k | k in keys :: m[k]
  }

  /** Writing one more entry of `m` over `base` extends the written part by that key. */
  lemma RestrictStep<K, V>(base: map<K, V>, m: map<K, V>, done: set<K>, k: K)
    requires done <= m.Keys && k in m
    ensures (base + Restrict(m, done))[k := m[k]] == base + Restrict(m, done + {k})
  {
  }

  /**
   * `probs` is `base` with the entries of `table` at `done` written over it:
   * where a key-by-key fill of `table` into `base` stands after `done`.
   */
  ghost predicate Filled<K, V>(base: map<K, V>, table: map<K, V>, done: set<K>, probs: map<K, V>) {
    done <= table.Keys && probs == base + Restrict(table, done)
  }

  lemma FilledStart<K, V>(base: map<K, V>, table: map<K, V>)
    ensures Filled(base, table, {}, base)
  {
    assert base + Restrict(table, {}) == base;
  }

  /** Writing the entry of one more key keeps `Filled`. */
  lemma FilledStep<K, V>(base: map<K, V>, table: map<K, V>, done: set<K>, probs: map<K, V>, k: K)
    requires Filled(base, table, done, probs) && k in table
    ensures Filled(base, table, done + {k}, probs[k := table[k]])
  {
    RestrictStep(base, table, done, k);
  }

  /** Once every key is written, the fill has merged the whole table. */
  lemma FilledAll<K, V>(base: map<K, V>, table: map<K, V>, probs: map<K, V>)
    requires Filled(base, table, table.Keys, probs)
    ensures probs == base + table
  {
    assert Restrict(table, table.Keys) == table;
  }

  /** The sum of a probability table's values over some of its keys. */
  ghost function SumReal<K>(m: map<K, real>, keys: set<K>): real
    requires keys <= m.Keys
    decreases keys
  {
    if keys == {} then 0.0 else var k :| k in keys; m[k] + SumReal(m, keys - {k})
  }

  lemma {:induction false} SumRealRemove<K>(m: map<K, real>, keys: set<K>, x: K)
    requires keys <= m.Keys && x in keys
    ensures SumReal(m, keys) == m[x] + SumReal(m, keys - {x})
    decreases keys
  {
    var k :| k in keys && SumReal(m, keys) == m[k] + SumReal(m, keys - {k});
    if k != x {
      SumRealRemove(m, keys - {k}, x);
      SumRealRemove(m, keys - {x}, k);
      assert keys - {k} - {x} == keys - {x} - {k};
    }
  }

  lemma DivAdd(a: real, b: real, d: real)
    requires d != 0.0
    ensures a / d + b / d == (a + b) / d
  {
  }

  lemma DivSelf(d: real)
    requires d > 0.0
    ensures d / d == 1.0
  {
  }

  /** A table whose every value is `count / d` sums to `(sum of counts) / d`. */
  lemma {:induction false} SumOfRatios<K>(counts: map<K, nat>, p: map<K, real>, keys: set<K>, d: real)
    requires keys <= counts.Keys && keys <= p.Keys && d != 0.0
    requires forall k :: k in keys ==> p[k] == counts[k] as real / d
    ensures SumReal(p, keys) == SumOver(counts, keys) as real / d
    decreases keys
  {
    if keys != {} {
      var k :| k in keys && SumReal(p, keys) == p[k] + SumReal(p, keys - {k});
      var rest := keys - {k};
      SumOverRemove(counts, keys, k);
      SumOfRatios(counts, p, rest, d);
      DivAdd(counts[k] as real, SumOver(counts, rest) as real, d);
    }
  }

  /** Adding one to every count adds the number of keys to the sum. */
  lemma {:induction false} SumOverAddOne<K>(counts: map<K, nat>, shifted: map<K, nat>, keys: set<K>)
    requires keys <= counts.Keys && keys <= shifted.Keys
    requires forall k :: k in keys ==> shifted[k] == counts[k] + 1
    ensures SumOver(shifted, keys) == SumOver(counts, keys) + |keys|
    decreases keys
  {
    if keys != {} {
      var k :| k in keys;
      SumOverRemove(counts, keys, k);
      SumOverRemove(shifted, keys, k);
      SumOverAddOne(counts, shifted, keys - {k});
    }
  }
}
