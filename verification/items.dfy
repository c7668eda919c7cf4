/** Bank slots and sums over them. A slot is what the game client's `Item` holds:
    an item id and a stack quantity, both Java `int`s. */
module Items {
  import opened JavaInt

  datatype Item = Item(id: Int32, quantity: Int32)

  /** `ItemID.COINS_995`: coins, valued at face value. */
  const Coins: Int32 := 995

  /** `ItemID.PLATINUM_TOKEN`: platinum tokens, each worth 1000 coins. */
  const PlatinumToken: Int32 := 13204

  /** The coin value of one platinum token. */
  const TokenValue: int := 1000

  /** A slot that is valued at all: an empty slot (id <= 0) or an empty stack
      (quantity 0) is skipped. Negative quantities are not skipped. */
  predicate Occupied(it: Item)
  {
    it.id > 0 && it.quantity != 0
  }

  /** An occupied slot whose value comes from a price lookup rather than from
      the currency fast paths. */
  predicate Priced(it: Item)
  {
    Occupied(it) && it.id != Coins && it.id != PlatinumToken
  }

  /** Ids of distinct slots differ. */
  predicate DistinctIds(items: seq<Item>)
  {
    forall i, j :: 0 <= i < j < |items| ==> items[i].id != items[j].id
  }

  /** The sum of `f` over the slots, accumulated from the first slot to the last. */
  function SumOver(items: seq<Item>, f: Item -> int): int
  {
    if |items| == 0 then 0 else SumOver(items[..|items| - 1], f) + f(items[|items| - 1])
  }

  /** Total quantity held in slots with the given id. */
  function QuantityOf(items: seq<Item>, id: int): int
  {
    SumOver(items, (it: Item) => if it.id == id then it.quantity else 0)
  }

  lemma {:induction false} SumOverAppend(a: seq<Item>, b: seq<Item>, f: Item -> int)
    ensures SumOver(a + b, f) == SumOver(a, f) + SumOver(b, f)
    decreases |b|
  {
    if |b| > 0 {
      var b' := b[..|b| - 1];
      assert (a + b)[..|a + b| - 1] == a + b';
      SumOverAppend(a, b', f);
    } else {
      assert a + b == a;
    }
  }

  /** Removing the slot at index `j` takes exactly its term out of the sum. */
  lemma SumOverRemoveAt(b: seq<Item>, j: int, f: Item -> int)
    requires 0 <= j < |b|
    ensures SumOver(b, f) == SumOver(b[..j] + b[j + 1..], f) + f(b[j])
  {
    assert b == b[..j] + [b[j]] + b[j + 1..];
    SumOverAppend(b[..j] + [b[j]], b[j + 1..], f);
    SumOverAppend(b[..j], [b[j]], f);
    SumOverAppend(b[..j], b[j + 1..], f);
    assert [b[j]][..0] == [];
  }

  /** A sum over slots does not depend on the order of the slots. */
  lemma {:induction false} SumOverPermutation(a: seq<Item>, b: seq<Item>, f: Item -> int)
    requires multiset(a) == multiset(b)
    ensures SumOver(a, f) == SumOver(b, f)
    decreases |a|
  {
    if |a| == 0 {
      assert |b| == |multiset(b)| == 0;
    } else {
      var x := a[|a| - 1];
      var a' := a[..|a| - 1];
      assert a == a' + [x];
      assert x in multiset(b);
      var j :| 0 <= j < |b| && b[j] == x;
      var b' := b[..j] + b[j + 1..];
      assert multiset(a') == multiset(b') by {
        assert b == b[..j] + [x] + b[j + 1..];
        calc {
          multiset(b);
          multiset(b[..j] + [x] + b[j + 1..]);
          multiset(b[..j]) + multiset{x} + multiset(b[j + 1..]);
          multiset(b') + multiset{x};
        }
        assert multiset(a) == multiset(a') + multiset{x};
        assert multiset(b') == multiset(b) - multiset{x};
        assert multiset(a') == multiset(a) - multiset{x};
      }
      SumOverPermutation(a', b', f);
      SumOverRemoveAt(b, j, f);
    }
  }

  /** A slot for which `f` is zero does not change the sum, wherever it sits. */
  lemma SumOverNeutralSlot(a: seq<Item>, it: Item, b: seq<Item>, f: Item -> int)
    requires f(it) == 0
    ensures SumOver(a + [it] + b, f) == SumOver(a + b, f)
  {
    SumOverAppend(a + [it], b, f);
    SumOverAppend(a, b, f);
    assert (a + [it])[..|a|] == a;
  }

  /** A sum of terms that are all zero is zero. */
  lemma {:induction false} SumOverZero(items: seq<Item>, f: Item -> int)
    requires forall k :: 0 <= k < |items| ==> f(items[k]) == 0
    ensures SumOver(items, f) == 0
  {
    if |items| > 0 {
      SumOverZero(items[..|items| - 1], f);
    }
  }

  /** With distinct ids, each slot occurs at most once. */
  lemma {:induction false} DistinctIdsCount(items: seq<Item>, x: Item)
    requires DistinctIds(items)
    ensures multiset(items)[x] == if x in items then 1 else 0
  {
    if |items| > 0 {
      var prefix := items[..|items| - 1];
      var last := items[|items| - 1];
      assert items == prefix + [last];
      assert DistinctIds(prefix);
      DistinctIdsCount(prefix, x);
      if x == last {
        assert x !in prefix;
      }
    }
  }
}
