/** Change detection for the bank: the slots are folded into an id -> quantity
    map (`mapCheck` in `hashItems` and `isBankDifferent`) and the map's Java
    `hashCode` is the fingerprint. Java defines a map's hash as the sum, wrapped
    to 32 bits, of its entries' hashes, and an entry's hash for `Integer` key and
    value as `key ^ value`. Fingerprints are kept as unsigned 32-bit patterns. */
module ChangeDetection {
  import opened JavaInt
  import opened Items

  /** The map `mapCheck.put(id, quantity)` builds, slot by slot: every slot takes
      part, and a later slot with the same id overwrites an earlier one. */
  function Fold(items: seq<Item>): map<Int32, Int32>
  {
    if |items| == 0 then map[]
    else
      var last := items[|items| - 1];
      Fold(items[..|items| - 1])[last.id := last.quantity]
  }

  /** `Map.Entry.hashCode()` of an `Integer -> Integer` entry: `key ^ value`. */
  function EntryHash(key: Int32, value: Int32): nat
  {
    Xor(Bits(key), Bits(value))
  }

  /** The exact (unwrapped) sum of the entry hashes of `m` over the ids in `keys`. */
  ghost function KeySum(m: map<Int32, Int32>, keys: set<Int32>): int
    requires keys <= m.Keys
    decreases keys
  {
    if keys == {} then 0
    else
      var k :| k in keys;
      EntryHash(k, m[k]) + KeySum(m, keys - {k})
  }

  /** The exact (unwrapped) sum of all entry hashes of `m`. */
  ghost function MapSum(m: map<Int32, Int32>): int
  {
    KeySum(m, m.Keys)
  }

  /** `Map.hashCode()`: the entry hashes summed with 32-bit wrap-around. */
  ghost function MapHash(m: map<Int32, Int32>): nat
  {
    MapSum(m) % Modulus
  }

  /** The fingerprint of a slot sequence: the hash of its folded map. */
  ghost function Fingerprint(items: seq<Item>): nat
  {
    MapHash(Fold(items))
  }

  lemma EntryHashBound(key: Int32, value: Int32)
    ensures 0 <= EntryHash(key, value) < Modulus
  {
    Xor32Facts(Bits(key), Bits(value), Bits(value));
  }

  /** The sum does not depend on which id is taken out first. */
  lemma {:induction false} KeySumRemove(m: map<Int32, Int32>, keys: set<Int32>, k: Int32)
    requires keys <= m.Keys && k in keys
    ensures KeySum(m, keys) == EntryHash(k, m[k]) + KeySum(m, keys - {k})
    decreases keys
  {
    var j :| j in keys && KeySum(m, keys) == EntryHash(j, m[j]) + KeySum(m, keys - {j});
    if j != k {
      KeySumRemove(m, keys - {j}, k);
      KeySumRemove(m, keys - {k}, j);
      assert keys - {j} - {k} == keys - {k} - {j};
    }
  }

  /** The sum over `keys` only looks at the entries of those ids. */
  lemma {:induction false} KeySumAgree(m1: map<Int32, Int32>, m2: map<Int32, Int32>, keys: set<Int32>)
    requires keys <= m1.Keys && keys <= m2.Keys
    requires forall x :: x in keys ==> m1[x] == m2[x]
    ensures KeySum(m1, keys) == KeySum(m2, keys)
    decreases keys
  {
    if keys != {} {
      var k :| k in keys && KeySum(m1, keys) == EntryHash(k, m1[k]) + KeySum(m1, keys - {k});
      KeySumRemove(m2, keys, k);
      KeySumAgree(m1, m2, keys - {k});
    }
  }

  /** Overwriting the quantity of a present id replaces exactly that entry's hash. */
  lemma MapSumUpdate(m: map<Int32, Int32>, k: Int32, v: Int32)
    requires k in m
    ensures MapSum(m[k := v]) == MapSum(m) - EntryHash(k, m[k]) + EntryHash(k, v)
  {
    var m' := m[k := v];
    assert m'.Keys == m.Keys;
    KeySumRemove(m, m.Keys, k);
    KeySumRemove(m', m.Keys, k);
    KeySumAgree(m, m', m.Keys - {k});
  }

  /** Adding a new id adds exactly that entry's hash. */
  lemma MapSumInsert(m: map<Int32, Int32>, k: Int32, v: Int32)
    requires k !in m
    ensures MapSum(m[k := v]) == MapSum(m) + EntryHash(k, v)
  {
    var m' := m[k := v];
    assert m'.Keys - {k} == m.Keys;
    KeySumRemove(m', m'.Keys, k);
    KeySumAgree(m, m', m.Keys);
  }

  /** Shifting a sum by a nonzero amount smaller than 2^32 changes it modulo 2^32. */
  lemma WrappedShiftDiffers(s: int, d: int)
    requires 0 < d < Modulus || -Modulus < d < 0
    ensures (s + d) % Modulus != s % Modulus
  {
  }

  /** The ids of the folded map are exactly the ids of the slots. */
  lemma {:induction false} FoldKeys(items: seq<Item>, k: Int32)
    ensures k in Fold(items) <==> exists i :: 0 <= i < |items| && items[i].id == k
  {
    if |items| > 0 {
      var prefix := items[..|items| - 1];
      FoldKeys(prefix, k);
      if k in Fold(prefix) {
        var i :| 0 <= i < |prefix| && prefix[i].id == k;
        assert items[i].id == k;
      }
      if i :| 0 <= i < |items| && items[i].id == k {
        if i < |items| - 1 {
          assert prefix[i].id == k;
        }
      }
    }
  }

  /** The folded map holds, for each id, the quantity of the last slot with that id. */
  lemma {:induction false} FoldLastWrite(items: seq<Item>, i: int)
    requires 0 <= i < |items|
    requires forall j :: i < j < |items| ==> items[j].id != items[i].id
    ensures items[i].id in Fold(items) && Fold(items)[items[i].id] == items[i].quantity
  {
    if i < |items| - 1 {
      var prefix := items[..|items| - 1];
      assert prefix[i] == items[i];
      FoldLastWrite(prefix, i);
    }
  }

  /** With distinct ids, slot order does not matter to the folded map. */
  lemma FoldPermutation(a: seq<Item>, b: seq<Item>)
    requires DistinctIds(a) && DistinctIds(b)
    requires multiset(a) == multiset(b)
    ensures Fold(a) == Fold(b)
  {
    forall k: Int32
      ensures k in Fold(a) <==> k in Fold(b)
      ensures k in Fold(a) ==> Fold(a)[k] == Fold(b)[k]
    {
      FoldKeys(a, k);
      FoldKeys(b, k);
      if i :| 0 <= i < |a| && a[i].id == k {
        assert a[i] in multiset(b);
        var j :| 0 <= j < |b| && b[j] == a[i];
        FoldLastWrite(a, i);
        FoldLastWrite(b, j);
      }
      if j :| 0 <= j < |b| && b[j].id == k {
        assert b[j] in multiset(a);
      }
    }
  }

  /** With distinct ids, the folded map determines the slots up to order. */
  lemma FoldDeterminesSlots(a: seq<Item>, b: seq<Item>)
    requires DistinctIds(a) && DistinctIds(b)
    requires Fold(a) == Fold(b)
    ensures multiset(a) == multiset(b)
  {
    forall x: Item
      ensures x in a ==> x in b
      ensures x in b ==> x in a
    {
      if i :| 0 <= i < |a| && a[i] == x {
        FoldInMap(a, b, i);
      }
      if j :| 0 <= j < |b| && b[j] == x {
        FoldInMap(b, a, j);
      }
    }
    forall x: Item
      ensures multiset(a)[x] == multiset(b)[x]
    {
      DistinctIdsCount(a, x);
      DistinctIdsCount(b, x);
    }
  }

  /** A slot of `a` reappears in any distinct-id `b` with the same folded map. */
  lemma FoldInMap(a: seq<Item>, b: seq<Item>, i: int)
    requires DistinctIds(a) && DistinctIds(b)
    requires Fold(a) == Fold(b)
    requires 0 <= i < |a|
    ensures a[i] in b
  {
    FoldLastWrite(a, i);
    FoldKeys(b, a[i].id);
    var j :| 0 <= j < |b| && b[j].id == a[i].id;
    FoldLastWrite(b, j);
    assert b[j] == a[i];
  }

  /** Two slot sequences that are permutations of each other, each with distinct
      ids, have the same fingerprint. */
  lemma FingerprintPermutation(a: seq<Item>, b: seq<Item>)
    requires DistinctIds(a) && DistinctIds(b)
    requires multiset(a) == multiset(b)
    ensures Fingerprint(a) == Fingerprint(b)
  {
    FoldPermutation(a, b);
  }

  /** Last write wins: a slot followed by a slot with the same id leaves no trace. */
  lemma FingerprintLastWriteWins(a: seq<Item>, x: Item, y: Item)
    requires x.id == y.id
    ensures Fingerprint(a + [x, y]) == Fingerprint(a + [y])
  {
    assert (a + [x, y])[..|a| + 1] == a + [x];
    assert (a + [x])[..|a|] == a;
    assert (a + [y])[..|a|] == a;
    assert Fold(a + [x, y]) == Fold(a + [y]);
  }

  /** Appending a slot that changes the quantity stored for an id already
      present always changes the fingerprint. */
  lemma QuantityChangeDetected(a: seq<Item>, it: Item)
    requires it.id in Fold(a) && Fold(a)[it.id] != it.quantity
    ensures Fingerprint(a + [it]) != Fingerprint(a)
  {
    var m := Fold(a);
    assert (a + [it])[..|a|] == a;
    assert Fold(a + [it]) == m[it.id := it.quantity];
    MapSumUpdate(m, it.id, it.quantity);
    var before: int, after: int := EntryHash(it.id, m[it.id]), EntryHash(it.id, it.quantity);
    Xor32Facts(Bits(it.id), Bits(m[it.id]), Bits(it.quantity));
    if Bits(m[it.id]) == Bits(it.quantity) {
      BitsInjective(m[it.id], it.quantity);
    }
    EntryHashBound(it.id, m[it.id]);
    EntryHashBound(it.id, it.quantity);
    WrappedShiftDiffers(MapSum(m), after - before);
  }

  /** Appending a slot whose id is new changes the fingerprint exactly when the
      id differs from the quantity: an entry with `id == quantity` hashes to 0. */
  lemma NewIdDetectedIff(a: seq<Item>, it: Item)
    requires it.id !in Fold(a)
    ensures Fingerprint(a + [it]) != Fingerprint(a) <==> it.id != it.quantity
  {
    var m := Fold(a);
    assert (a + [it])[..|a|] == a;
    assert Fold(a + [it]) == m[it.id := it.quantity];
    MapSumInsert(m, it.id, it.quantity);
    Xor32Facts(Bits(it.id), Bits(it.quantity), Bits(it.quantity));
    if Bits(it.id) == Bits(it.quantity) {
      BitsInjective(it.id, it.quantity);
    }
    var e := EntryHash(it.id, it.quantity);
    if e != 0 {
      WrappedShiftDiffers(MapSum(m), e);
    }
  }

  /** The fingerprint of a single slot is the hash of its one entry. */
  lemma SingletonFingerprint(it: Item)
    ensures Fingerprint([it]) == EntryHash(it.id, it.quantity)
  {
    assert [it][..0] == [];
    var empty: map<Int32, Int32> := map[];
    assert Fold([it]) == empty[it.id := it.quantity];
    assert MapSum(empty) == 0 by {
      assert empty.Keys == {};
    }
    MapSumInsert(empty, it.id, it.quantity);
    EntryHashBound(it.id, it.quantity);
  }

  /** `mapCheck.hashCode()`: the entry hashes of `m` summed with 32-bit wrap-around,
      one entry at a time in whatever order the map yields them. */
  method MapHashCode(m: map<Int32, Int32>) returns (h: nat)
    ensures h == MapHash(m)
  {
    h := 0;
    var rest := m.Keys;
    while rest != {}
      invariant rest <= m.Keys
      invariant h < Modulus
      invariant (h + KeySum(m, rest)) % Modulus == MapSum(m) % Modulus
      decreases rest
    {
      var k :| k in rest;
      KeySumRemove(m, rest, k);
      var e := EntryHash(k, m[k]);
      ModAddLeft(h + e, KeySum(m, rest - {k}));
      h := (h + e) % Modulus;
      rest := rest - {k};
    }
  }

  /** `hashItems`: fold the slots into `mapCheck`, then take its hash. */
  method HashItems(items: seq<Item>) returns (h: nat)
    ensures h == Fingerprint(items)
  {
    var m: map<Int32, Int32> := map[];
    for i := 0 to |items|
      invariant m == Fold(items[..i])
    {
      assert items[..i + 1][..i] == items[..i];
      m := m[items[i].id := items[i].quantity];
    }
    assert items[..|items|] == items;
    h := MapHashCode(m);
  }
}
