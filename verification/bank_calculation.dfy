/** The calculator object (`BankCalculation`) as an immutable state record and
    its two entry points: `calculate()`, which values the bank view and keeps
    `gePrice`/`haPrice`, and `calculate(Item[])`, which values a given slot array
    and keeps a separate `ContainerPrices` cache. The two caches are independent,
    as in the source. */
module BankCalculation {
  import opened Wrappers
  import opened JavaInt
  import opened Items
  import opened ChangeDetection
  import opened Valuation
  import opened Tabs

  /** The calculator's fields. `itemsHash` is the fingerprint `calculate()` last
      stored, `None` while it has stored none; `containerPrices` and `hash` are
      the cache of `calculate(Item[])`. */
  datatype State = State(
    itemsHash: Option<nat>,
    gePrice: int,
    haPrice: int,
    containerPrices: Option<ContainerPrices>,
    hash: nat)

  /** A fresh calculator: no fingerprint stored, totals zero, no cached prices. */
  function Init(): State
  {
    State(None, 0, 0, None, 0)
  }

  /** A fresh calculator as the source builds it: `itemsHash` starts as the
      `int` 0, which is indistinguishable from a stored fingerprint 0. */
  function AsWrittenInit(): State
  {
    State(Some(0), 0, 0, None, 0)
  }

  /** `isBankDifferent`: report whether the fingerprint differs from the stored
      one and store it. */
  method IsBankDifferent(s: State, items: seq<Item>) returns (different: bool, s': State)
    ensures different <==> s.itemsHash != Some(Fingerprint(items))
    ensures s' == s.(itemsHash := Some(Fingerprint(items)))
    ensures !different ==> s' == s
  {
    var curHash := HashItems(items);
    if s.itemsHash != Some(curHash) {
      return true, s.(itemsHash := Some(curHash));
    }
    return false, s;
  }

  /** `calculate()`: slice the bank to the current tab; when a bank is open, the
      view is not empty and its fingerprint differs from the stored one, store
      the fingerprint and replace both totals by freshly computed ones; otherwise
      change nothing. A slicing error is returned and leaves the state as it was. */
  method Calculate(s: State, bank: Option<seq<Item>>, counts: seq<int>, currentTab: int,
                   cfg: Config, prices: Prices)
    returns (s': State, failure: Option<TabError>)
    ensures bank.None? ==> s' == s && failure == None
    ensures bank.Some? && SliceTab(bank.value, counts, currentTab).Failure? ==>
              s' == s && failure == Some(SliceTab(bank.value, counts, currentTab).error)
    ensures bank.Some? && SliceTab(bank.value, counts, currentTab).Success? ==>
              var items := SliceTab(bank.value, counts, currentTab).value;
              && failure == None
              && (|items| == 0 || s.itemsHash == Some(Fingerprint(items)) ==> s' == s)
              && (|items| > 0 && s.itemsHash != Some(Fingerprint(items)) ==>
                    s' == s.(itemsHash := Some(Fingerprint(items)),
                             gePrice := BankGe(items, cfg, prices),
                             haPrice := BankHa(items, cfg, prices)))
  {
    var got := GetBankItems(bank, counts, currentTab);
    if got.Failure? {
      return s, Some(got.error);
    }
    if got.value.None? {
      return s, None;
    }
    var items := got.value.value;
    if |items| == 0 {
      return s, None;
    }
    var different, stored := IsBankDifferent(s, items);
    if !different {
      return s, None;
    }
    var ge, ha := ValueBank(items, cfg, prices);
    return stored.(gePrice := ge, haPrice := ha), None;
  }

  /** `calculate(Item[])`: return the cached prices when there are some and the
      fingerprint matches; otherwise store the fingerprint and the newly computed
      prices together and return them. Either way, afterwards the cache holds the
      returned prices under this fingerprint, so a repeated call returns them again. */
  method CalculateContainer(s: State, items: seq<Item>, prices: Prices)
    returns (s': State, r: ContainerPrices)
    ensures s.containerPrices.Some? && s.hash == Fingerprint(items) ==>
              r == s.containerPrices.value && s' == s
    ensures s.containerPrices.None? || s.hash != Fingerprint(items) ==>
              && r == ContainerPrices(ContainerGe(items, prices), ContainerAlch(items, prices))
              && s' == s.(hash := Fingerprint(items), containerPrices := Some(r))
    ensures s'.containerPrices == Some(r) && s'.hash == Fingerprint(items)
  {
    var newHash := HashItems(items);
    if s.containerPrices.Some? && s.hash == newHash {
      return s, s.containerPrices.value;
    }
    r := ValueContainer(items, prices);
    s' := s.(hash := newHash, containerPrices := Some(r));
  }

  /** The cache is sound for slot sequences with distinct ids: equal folded maps
      mean equal totals in both passes. */
  lemma CacheSoundForDistinctIds(a: seq<Item>, b: seq<Item>, cfg: Config, prices: Prices)
    requires DistinctIds(a) && DistinctIds(b)
    requires Fold(a) == Fold(b)
    ensures BankGe(a, cfg, prices) == BankGe(b, cfg, prices)
    ensures BankHa(a, cfg, prices) == BankHa(b, cfg, prices)
    ensures ContainerGe(a, prices) == ContainerGe(b, prices)
    ensures ContainerAlch(a, prices) == ContainerAlch(b, prices)
  {
    FoldDeterminesSlots(a, b);
    ValuesIgnoreOrder(a, b, cfg, prices);
  }

  /** With a repeated id only the last slot reaches the fingerprint: two coin
      stacks of 10 and 20 fingerprint like a single stack of 20, so after one is
      valued the other is served from the cache with the wrong totals. */
  lemma RepeatedIdsShareFingerprint(cfg: Config, prices: Prices)
    ensures var two, one := [Item(Coins, 10), Item(Coins, 20)], [Item(Coins, 20)];
            && Fingerprint(two) == Fingerprint(one)
            && BankGe(two, cfg, prices) == 30 && BankGe(one, cfg, prices) == 20
            && ContainerGe(two, prices) == 30 && ContainerGe(one, prices) == 20
  {
    var x, y := Item(Coins, 10), Item(Coins, 20);
    FingerprintLastWriteWins([], x, y);
    assert [] + [x, y] == [x, y] && [] + [y] == [y];
    assert [] + [x] == [x] && [x] + [y] == [x, y];
    CoinsAddQuantity([], x, cfg, prices);
    CoinsAddQuantity([x], y, cfg, prices);
    CoinsAddQuantity([], y, cfg, prices);
  }

  /** A bank holding exactly 995 coins fingerprints to 0 (the entry hash
      995 ^ 995 is 0), which is the source's initial `itemsHash`: the first
      `calculate()` on it changes nothing, leaving `gePrice` at 0 although the
      bank is worth 995. */
  lemma AsWrittenSkipsFirstCalculation(cfg: Config, prices: Prices)
    ensures var items := [Item(Coins, 995)];
            && SliceTab(items, [], 0) == Success(items)
            && AsWrittenInit().itemsHash == Some(Fingerprint(items))
            && AsWrittenInit().gePrice == 0
            && BankGe(items, cfg, prices) == 995
  {
    var it := Item(Coins, 995);
    SingletonFingerprint(it);
    Xor32Facts(Bits(995), Bits(995), Bits(995));
    assert [] + [it] == [it];
    CoinsAddQuantity([], it, cfg, prices);
  }

  /** The first `calculate()` of a fresh calculator: whenever the view is open,
      slices without error and is not empty, both totals are computed and the
      fingerprint is stored, whatever that fingerprint is. */
  method FirstCalculate(bank: Option<seq<Item>>, counts: seq<int>, currentTab: int,
                        cfg: Config, prices: Prices)
    returns (s': State, failure: Option<TabError>)
    ensures bank.Some? && SliceTab(bank.value, counts, currentTab).Success? ==>
              var items := SliceTab(bank.value, counts, currentTab).value;
              |items| > 0 ==>
                && s'.itemsHash == Some(Fingerprint(items))
                && s'.gePrice == BankGe(items, cfg, prices)
                && s'.haPrice == BankHa(items, cfg, prices)
  {
    s', failure := Calculate(Init(), bank, counts, currentTab, cfg, prices);
  }
}
