# Bank value calculation — a Dafny model

This project models `BankCalculation`, the core of the RuneLite bank plugin that
values the bank. It adds up a Grand Exchange total and a high-alchemy total over
the bank's slots. It skips the work when the bank has not changed since the last
valuation, and it can value a single bank tab. The model keeps the three parts
of the class:

- **Change detection** (`ChangeDetection`). Slots are folded into an
  id → quantity map where the last write wins. The fingerprint is that map's Java
  `hashCode`: the 32-bit wrap-around sum of `id ^ quantity` over the entries.
  The model computes it concretely. Fingerprints are kept as unsigned 32-bit
  patterns, and xor is written out bit by bit.
- **Valuation** (`Valuation`). The two passes are kept apart because the source
  keeps them apart and they differ:
  - `calculate()` honours the `showGE`/`showHA` options and adds high-alchemy
    value only for a positive store price.
  - `calculate(Item[])` always computes both totals. It has no positive-price
    check, and its market term is an `int * int` product that wraps at 32 bits.
  - Both skip slots with id ≤ 0 or quantity 0. They value coins (995) at face
    value and platinum tokens (13204) at 1000 each, with no lookup.
  - Each pass has a reference definition, a per-slot sum (`BankGe`, `BankHa`,
    `ContainerGe`, `ContainerAlch`). Loop methods that mirror the Java are proved
    equal to those sums.
- **Calculator state** (`BankCalculation`). The class's fields are an immutable
  `State` record: the stored `itemsHash`, the totals, and the separate
  `ContainerPrices` cache of `calculate(Item[])`. Each entry point is a method
  that takes a state and returns the next state.
- **Tab slicing** (`Tabs`). In `getBankItems`, tab 0 is the whole bank. Tab k is
  the `counts[k-1]` slots that start after tabs 1 .. k-1. Bad tab data is an
  error value, not a precondition.

Inputs the source reads from the running client are parameters here. These are
the bank container (or its absence), the tab counts, the current tab, the two
options and the price lookups (`Prices`). `ItemID` is not part of this model. The
coin id 995 comes from the constant's name `COINS_995`. The platinum-token id
13204 is the game's id for that item; no property depends on its value, only on
it being positive and different from 995.

Where the code and a tidier design differ, the model follows the code:
- Negative quantities are valued, not skipped.
- An empty bank view leaves the totals unchanged; they are not reset to zero.
- The two caches stay independent.
- Line 200 of the source wraps at 32 bits; the model does not widen it to 64 bits.

## Model

| member | source | states |
|---|---|---|
| `ChangeDetection.HashItems` | runelite-client/src/main/java/net/runelite/client/plugins/bank/BankCalculation.java:212-221 | the hash equals the 32-bit Java map hash of the last-write-wins id → quantity map of all slots, empty ones included |
| `ChangeDetection.MapHashCode` | runelite-client/src/main/java/net/runelite/client/plugins/bank/BankCalculation.java:220 | summing `key ^ value` over the entries with 32-bit wrap-around, in whatever order the map yields them, gives the map's hash |
| `ChangeDetection.SingletonFingerprint` | runelite-client/src/main/java/net/runelite/client/plugins/bank/BankCalculation.java:220 | a single-slot bank's fingerprint is `id ^ quantity` |
| `ChangeDetection.FingerprintPermutation` | runelite-client/src/main/java/net/runelite/client/plugins/bank/BankCalculation.java:253-260 | two slot sequences that are permutations of each other, each with distinct ids, have equal fingerprints |
| `ChangeDetection.FingerprintLastWriteWins` | runelite-client/src/main/java/net/runelite/client/plugins/bank/BankCalculation.java:214-218 | a slot followed by a slot with the same id has no effect on the fingerprint |
| `ChangeDetection.FoldDeterminesSlots` | runelite-client/src/main/java/net/runelite/client/plugins/bank/BankCalculation.java:214-218 | for distinct-id sequences, equal id → quantity maps mean the same slots, up to order |
| `ChangeDetection.QuantityChangeDetected` | runelite-client/src/main/java/net/runelite/client/plugins/bank/BankCalculation.java:253-262 | changing the stored quantity of an id that is present always changes the fingerprint; no collision is possible |
| `ChangeDetection.NewIdDetectedIff` | runelite-client/src/main/java/net/runelite/client/plugins/bank/BankCalculation.java:253-262 | adding a new id changes the fingerprint if and only if the id differs from its quantity |
| `BankCalculation.IsBankDifferent` | runelite-client/src/main/java/net/runelite/client/plugins/bank/BankCalculation.java:251-269 | returns true iff the fingerprint differs from the stored one. Afterwards the stored hash is the fingerprint; nothing else changes, and on false nothing changes at all |
| `BankCalculation.Calculate` | runelite-client/src/main/java/net/runelite/client/plugins/bank/BankCalculation.java:87-159 | no bank, an empty view, or an unchanged fingerprint leaves the state untouched; a slicing error is reported and leaves it untouched too. Otherwise it stores the fingerprint and sets both totals to the full valuation of the view |
| `BankCalculation.CalculateContainer` | runelite-client/src/main/java/net/runelite/client/plugins/bank/BankCalculation.java:162-210 | returns the cached prices unchanged when some exist under the same fingerprint. Otherwise it stores the fingerprint and the new prices together and returns them. Afterwards a repeated call hits the cache |
| `BankCalculation.CacheSoundForDistinctIds` | runelite-client/src/main/java/net/runelite/client/plugins/bank/BankCalculation.java:165-169 | two distinct-id slot sequences with the same id → quantity map have the same totals in both passes, so serving cached totals for them is correct |
| `BankCalculation.RepeatedIdsShareFingerprint` | runelite-client/src/main/java/net/runelite/client/plugins/bank/BankCalculation.java:212-221 | with a repeated id the cache is not sound: coin stacks [10, 20] and [20] share a fingerprint but are worth 30 and 20 |
| `BankCalculation.AsWrittenSkipsFirstCalculation` | runelite-client/src/main/java/net/runelite/client/plugins/bank/BankCalculation.java:65 | the initial stored hash 0 equals the fingerprint of a bank holding exactly 995 coins, which is worth 995; the totals stay 0 |
| `BankCalculation.FirstCalculate` | runelite-client/src/main/java/net/runelite/client/plugins/bank/BankCalculation.java:91-98 | from a calculator with no stored fingerprint, the first valuation of any non-empty view always computes both totals |
| `Valuation.ValueBank` | runelite-client/src/main/java/net/runelite/client/plugins/bank/BankCalculation.java:98-158 | the two loops of `calculate()`, starting from zero, produce exactly the per-slot reference totals `BankGe` and `BankHa` |
| `Valuation.ValueContainer` | runelite-client/src/main/java/net/runelite/client/plugins/bank/BankCalculation.java:173-209 | the loop of `calculate(Item[])` produces exactly the per-slot reference totals `ContainerGe` and `ContainerAlch` |
| `Valuation.BankGeDecomposition` | runelite-client/src/main/java/net/runelite/client/plugins/bank/BankCalculation.java:112-158 | `gePrice` is the coin count plus 1000 × the token count, plus the market value of the priced slots only when `showGE` is on |
| `Valuation.BankHaDecomposition` | runelite-client/src/main/java/net/runelite/client/plugins/bank/BankCalculation.java:112-142 | `haPrice` is the coin count plus 1000 × the token count, plus the high-alchemy value of priced slots with a positive store price only when `showHA` is on |
| `Valuation.UnoccupiedSlotIgnored` | runelite-client/src/main/java/net/runelite/client/plugins/bank/BankCalculation.java:107-110 | a slot with id ≤ 0 or quantity 0, anywhere in the sequence, changes none of the four totals of either pass (the same skip is at lines 181-184) |
| `Valuation.CoinsAddQuantity` | runelite-client/src/main/java/net/runelite/client/plugins/bank/BankCalculation.java:112-117 | a coin slot adds exactly its quantity to all four totals, negative quantities included, whatever the options and prices |
| `Valuation.TokensAddThousandfold` | runelite-client/src/main/java/net/runelite/client/plugins/bank/BankCalculation.java:119-124 | a platinum-token slot adds exactly 1000 × its quantity to all four totals, whatever the options and prices |
| `Valuation.HighAlchOnlyWhenShownAndPriced` | runelite-client/src/main/java/net/runelite/client/plugins/bank/BankCalculation.java:133-142 | a priced slot changes `haPrice` only when `showHA` is on and its store price is positive, and then adds `highAlch(price) × quantity` |
| `Valuation.ValuesIgnoreOrder` | runelite-client/src/main/java/net/runelite/client/plugins/bank/BankCalculation.java:103-143 | all four totals are the same for any permutation of the slots |
| `Valuation.ContainerGeMatchesBankGe` | runelite-client/src/main/java/net/runelite/client/plugins/bank/BankCalculation.java:200 | when every priced `price × quantity` fits in an `int`, the market total of `calculate(Item[])` equals `gePrice` of `calculate()` with `showGE` on |
| `Valuation.ContainerGeOverflows` | runelite-client/src/main/java/net/runelite/client/plugins/bank/BankCalculation.java:200 | a stack of 2 priced 1,500,000,000 gives `calculate(Item[])` a market total of 3,000,000,000 − 2^32, while `calculate()` gives 3,000,000,000 |
| `Tabs.SliceTab` | runelite-client/src/main/java/net/runelite/client/plugins/bank/BankCalculation.java:233-246 | tab ≤ 0 gives the whole bank. Tab k gives the `counts[k-1]` slots starting at the sum of the earlier counts, and succeeds iff that range lies inside the bank. A tab without a count is an error |
| `Tabs.GetBankItems` | runelite-client/src/main/java/net/runelite/client/plugins/bank/BankCalculation.java:223-249 | no container gives no items. Otherwise the downward loop over earlier tab counts and the copy produce exactly `SliceTab`'s result or error |
| `Tabs.TabsTile` | runelite-client/src/main/java/net/runelite/client/plugins/bank/BankCalculation.java:237-245 | with non-negative counts that fit in the bank, every tab slices successfully. Tab k is `items[Sum(counts[..k-1]) .. Sum(counts[..k])]`, so the tabs lie side by side from slot 0 |
| `Tabs.SecondTabExample` | runelite-client/src/main/java/net/runelite/client/plugins/bank/BankCalculation.java:235-246 | with tab counts 3, 2, 5, tab 2 is slots 3 and 4 |

## Findings

| source | as written | input that shows it | evidently intended | confidence | as-written member | corrected member |
|---|---|---|---|---|---|---|
| runelite-client/src/main/java/net/runelite/client/plugins/bank/BankCalculation.java:65 | `itemsHash` starts as 0, so the first `calculate()` treats a bank whose fingerprint is 0 as unchanged and leaves both totals at 0 | a bank (or tab) holding one slot of 995 coins: its only entry hashes to `995 ^ 995 = 0` | the first `calculate()` always values the bank; `calculate(Item[])` gets this right through its `containerPrices != null` test | medium; not executed | `BankCalculation.AsWrittenSkipsFirstCalculation` | `BankCalculation.FirstCalculate` |

The state keeps the stored hash as an `Option`. `BankCalculation.AsWrittenInit`
(`Some(0)`) is the source's start state. `BankCalculation.Init` (`None`) is the
corrected start state. The transitions are the same for both.

## Left out

- Reading the bank container and the varbits from the client: these arrive as parameters.
- `ItemManager` lookups: they are the functions in `Prices`, treated as pure. Whether and how often a lookup is issued is not modelled. This includes the composition lookup at line 126, which happens even when both options are off.
- `Math.round(price * 0.6f)` (line 139) and `(long) (price * Constants.HIGH_ALCHEMY_MULTIPLIER)` (line 198) are uninterpreted functions (`highAlch`, `alchPrice`), because they involve floating point. `Constants` is not part of this model.
- `Valuation.ValueBank`: the `long` totals are unbounded integers; 64-bit overflow of the sums is not modelled.
- `Valuation.ValueContainer`: the `long` totals are unbounded integers; only the 32-bit `int` product at line 200 is modelled as wrapping.
- `Tabs.GetBankItems`: when a tab runs past the end of the array, `Arrays.copyOfRange` pads the copy with nulls, and the change check then dereferences them. The model reports this as the error `PastEnd` rather than returning a padded array.
- `Tabs.GetBankItems`: the fixed list of nine tab varbits is modelled as a count sequence of any length, and 32-bit overflow of the start-index sum is not modelled.
- Exceptions thrown by the lookups, logging, dependency injection and Lombok getters.
- Object identity: `calculate(Item[])` returns the same `ContainerPrices` object on a cache hit, and the model returns an equal value.
